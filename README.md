# Turbine dataflow analysis core, in Dafny

Turbine is a Python library for dataflow graphs:

- synchronous dataflow (SDF);
- cyclo-static dataflow (CSDF);
- phased computation graphs (PCG), which add initial phases and consumption thresholds.

This project models the analytical core of Turbine and proves properties of that model. The core covers:

- **The graph classes** (`Turbine/graph_classe`): tasks with consecutive keys and unique names, and arcs with their rate lists. A phase-count change resets incident arcs. Each arc caches the gcd of its rates. The module also covers the reentrant, multigraph, bounded and cyclic tests, and the consistency and normalization tests.
- **The textual rate encoding** and its parser, for example `1:2,2;3:4,6`: the initial part, then ';', then the cyclic part, with `r:t` written where a threshold differs from its rate.
- **The repetition vector**: rational propagation along arcs, the lcm of the denominators, and division by the gcd.
- **Normalization**: per-arc rational coefficients, the ceiling on the marking, the inverse vector, and validation of a supplied vector.
- **Initial-marking computation**:
  - the choice of solver by estimated row count;
  - the closed form for self-loops;
  - the constraint rows of the SC1 and SC2 linear programs;
  - the revision of a solved marking up to a multiple of the arc's step.
- **The period computation**: the amin/amax windows, rounded to multiples of the step, and the rows emitted.
- **Symbolic execution**, both the timed and the untimed simulator. It detects deadlock and records start times.
- **Smaller pieces**:
  - Tarjan's strongly connected components;
  - Bellman-Ford start times of an HSDF schedule;
  - gcd and lcm;
  - the validating `Parameters` object;
  - the legacy `turbine` graph class with its flags, setters and `getConsStr`.

## How the model is built

Code that updates objects in place is modelled as a class whose methods have `modifies` clauses. Examples are the graph, the solvers' row builders, Tarjan's state, the simulators and the parameters. Each method is proved against a function on values, and the properties the source promises are proved about those functions as lemmas.

The LP solvers are not modelled. Their primal values enter as parameters (`Rounding.Solution`).

Python's floor division and modulo are written out in `Arith`. Python rationals are written out in `Fractions`.

Where the code as written departs from what it evidently intends, both versions are modelled, as listed under "## Findings". The rest of the model uses the corrected version.

## Model

| member | source | states |
|---|---|---|
| GcdLcm.Gcd | turbine/models/gcd.py:1-14 | the swap loop `a, b = b, a % b` ends with Euclid's value of the arguments, and returns `a` unchanged when `b` is zero |
| GcdLcm.EuclidDivides | turbine/models/gcd.py:12-14 | the value of the loop divides both arguments, whatever their signs |
| GcdLcm.EuclidGreatest | turbine/models/gcd.py:12-14 | every common divisor of the arguments divides the value: it is a greatest common divisor |
| GcdLcm.EuclidSign | turbine/models/gcd.py:12-14 | on non-negative arguments the gcd is non-negative, and positive as soon as one argument is |
| GcdLcm.EuclidPositive | turbine/models/gcd.py:12-14 | with a positive second argument the gcd is positive, whatever the sign of the first (the remainders take the divisor's sign) |
| GcdLcm.EuclidNonZero | turbine/models/gcd.py:12-14 | the gcd is zero only when both arguments are |
| GcdLcm.EuclidComm | turbine/models/gcd.py:12-14 | on non-negative arguments the order of the arguments does not change the gcd |
| GcdLcm.EuclidSelf | turbine/models/gcd.py:12-14 | `gcd(a, a) == a` |
| GcdLcm.GcdList | turbine/models/gcd.py:16-31 | `gcdList` starts from `l[0]` and folds in every element, `l[0]` included; a one-element list gives that element |
| GcdLcm.GcdFoldDividesAll | turbine/models/gcd.py:27-31 | the folded gcd divides the start value and every element |
| GcdLcm.GcdFoldGreatest | turbine/models/gcd.py:27-31 | every common divisor of the start value and the elements divides the folded gcd |
| GcdLcm.GcdReduceDividesAll | Turbine/graph_classe/csdf.py:184-202 | `reduce(gcd, rates)` divides every rate of the list |
| GcdLcm.GcdReduceGreatest | Turbine/graph_classe/csdf.py:184-202 | every common divisor of the rates divides `reduce(gcd, rates)` |
| GcdLcm.GcdReducePositive | Turbine/graph_classe/csdf.py:184-202 | a list of positive rates has a positive gcd |
| GcdLcm.LcmMultiple | turbine/models/lcm.py:4-5 | for nonzero arguments `abs(a*b) // gcd(a, b)` is a nonzero common multiple of both, positive for positive arguments |
| GcdLcm.LcmAsCofactor | Turbine/calc/lcm.py:4-5 | the lcm equals the absolute value of `a*b/gcd` carrying the sign of the gcd (Python's floor division by a negative gcd) |
| GcdLcm.LcmSelf | Turbine/calc/lcm.py:4-5 | `lcm(a, a) == a` for nonzero `a` |
| GcdLcm.LcmFold | Turbine/calc/lcm.py:8-12 | folding `lcm` over nonzero elements from a nonzero start never reaches zero |
| GcdLcm.LcmList | turbine/models/lcm.py:7-11 | `lcmList` starts from `l[0]` and folds in every element, `l[0]` included; a one-element list gives that element |
| GcdLcm.LcmListCalc | Turbine/calc/lcm.py:8-12 | `lcm_list` starts from `l[0]` and folds in `l[1:]`; a one-element list gives that element |
| GcdLcm.LcmFoldMultipleOfAll | Turbine/calc/lcm.py:8-12 | the folded lcm is a multiple of the start value and of every element |
| GcdLcm.LcmFoldPositive | Turbine/calc/lcm.py:8-12 | positive elements and a positive start give a positive lcm |
| Graph.SumScaled | Turbine/algorithms/normalized.py:36-52 | a list whose entries are each `d` times the matching entry of another has `d` times its sum (what multiplying an arc's lists does to the rate) |
| Graph.SdfSettersGcd | Turbine/graph_classe/sdf.py:105-146 | after `set_cons_rate` or `set_prod_rate` the cached arc gcd divides both scalar rates |
| Graph.CsdfGcdIsGcd | Turbine/graph_classe/csdf.py:184-200 | `gcd(reduce(gcd, cons), reduce(gcd, prod))` divides every consumption and production entry, and every common divisor of them divides it |
| Graph.ReduceAppend | Turbine/graph_classe/pcg.py:205-212 | `reduce(gcd, l + [g])` divides `g` and every entry of `l` |
| Graph.PcgGcdDivides | Turbine/graph_classe/pcg.py:196-219 | the PCG recomputation yields a divisor of the stored gcd and of every initial rate and threshold entry |
| Graph.PcgRegcdDividesEntries | Turbine/graph_classe/pcg.py:196-219 | once the stored gcd divides the rate lists, the PCG recomputation makes it divide every list of the arc |
| Graph.PcgSettersKeepGcd | Turbine/graph_classe/pcg.py:165-195 | the consumption, initial consumption, initial production, threshold and initial threshold setters of the PCG class all keep the cached gcd a divisor of every entry of the arc |
| Graph.PcgProdSetterLosesThresholds | Turbine/graph_classe/csdf.py:171-182 | the production setter the PCG class inherits recomputes only the CSDF gcd: on a concrete arc the gcd ends up not dividing a threshold |
| Graph.ProdSetterCorrectedKeepsGcd | Turbine/graph_classe/pcg.py:196-219 | with the PCG recomputation after it, the production setter leaves a gcd dividing the new list, the consumption list and, on a PCG graph, every list of the arc |
| Graph.EndsOf | Turbine/graph_classe/dataflow.py:139-165 | `get_source`/`get_target` of every arc, in arc order |
| Graph.OutArcs | Turbine/graph_classe/dataflow.py:334-355 | `get_arc_list(source=t)` lists only arcs that leave `t` |
| Graph.InArcs | Turbine/graph_classe/dataflow.py:334-353 | `get_arc_list(target=t)` lists only arcs that enter `t` |
| Graph.OutArcsComplete | Turbine/graph_classe/dataflow.py:334-355 | every arc that leaves `t` is in `get_arc_list(source=t)` |
| Graph.InArcsComplete | Turbine/graph_classe/dataflow.py:334-353 | every arc that enters `t` is in `get_arc_list(target=t)` |
| Graph.ParallelCountPositive | Turbine/graph_classe/dataflow.py:356-358 | `len(get_arc_list(source=s, target=t))` counts the arc it was asked about |
| Graph.ParallelCountTwo | Turbine/graph_classe/dataflow.py:593-603 | the count of arcs on a pair exceeds one iff two distinct arcs join that pair in that direction (the meaning of `is_multi_graph`) |
| Graph.ParallelCountWitness | Turbine/graph_classe/dataflow.py:356-358 | a positive count on a pair exhibits an arc with those ends |
| Graph.CyclicIffCycle | Turbine/graph_classe/dataflow.py:614-620 | on a graph whose arcs join its tasks, `is_cyclic` holds exactly when the acyclicity test finds a cycle: its reentrant test is subsumed, since a self-loop is a cycle |
| Graph.SelfLoopIsCycle | Turbine/graph_classe/dataflow.py:614-621 | a self-loop is also a cycle for the acyclicity test, so the first test of `is_cyclic` only short-cuts the second |
| Graph.IsNormalizedMeaning | Turbine/graph_classe/csdf.py:246-261 | without isolated tasks `is_normalized` answers (no `IndexError`), and answers true iff every task sees one rate (the sum of the cyclic list) on all its incident arcs |
| Graph.IsConsistent | Turbine/graph_classe/sdf.py:189-197 | the consistency test as intended: true iff `sum(prod) * rf(src) == sum(cons) * rf(tgt)` on every arc |
| Graph.IsConsistentAsWrittenRaises | Turbine/graph_classe/sdf.py:189-197 | the test as written applies `sum` to an SDF scalar rate: on any graph with an arc it raises instead of answering |
| Dataflow.NewArc | Turbine/graph_classe/dataflow.py:269-298 | a new arc has marking 0, token size 1, the name `"a" + str(arc_key)` and, as key, the number of arcs already joining the same pair |
| Dataflow.NewArcGcd | Turbine/graph_classe/csdf.py:135-148 | the lists of ones a new arc receives make its stored gcd 1, which is the gcd the CSDF (and PCG) setters compute and divides every entry |
| Dataflow.ResetArcShape | Turbine/graph_classe/csdf.py:77-102 | a phase-count reset gives `[1] * n` as consumption to arcs entering the task and as production to arcs leaving it (and, for PCG, as thresholds), and changes nothing else of the arc |
| Dataflow.ResetArcGcd | Turbine/graph_classe/csdf.py:77-102 | after a phase-count reset the stored gcd of every touched arc still divides all its entries |
| Dataflow.ArcAppend | Turbine/graph_classe/dataflow.py:269-298 | appending the arc `add_arc` builds keeps every arc well formed (ends are tasks, rate lists non-empty and scalar on SDF, names `"a" + id`, keys counting the earlier arcs on the same pair); the new arc's production and consumption lists are as long as its source's and target's phase counts, and its gcd divides every entry |
| Dataflow.ResetConsLists | Turbine/graph_classe/csdf.py:98-99 | the loop over `get_arc_list(target=task)` resets the consumption list of exactly the arcs entering the task and keeps the arcs well formed |
| Dataflow.ResetProdLists | Turbine/graph_classe/csdf.py:101-102 | the loop over `get_arc_list(source=task)` resets the production list of exactly the arcs leaving the task and keeps the arcs well formed |
| Dataflow.ResetIniConsLists | Turbine/graph_classe/pcg.py:97-98 | the PCG loop resets the initial consumption (and initial threshold) list of exactly the arcs entering the task |
| Dataflow.ResetIniProdLists | Turbine/graph_classe/pcg.py:100-101 | the PCG loop resets the initial production list of exactly the arcs leaving the task |
| Dataflow.DataflowGraph.constructor | Turbine/graph_classe/dataflow.py:29-40 | a new graph has no task and no arc, both counters at 0 and an empty name index |
| Dataflow.DataflowGraph.AddTask | Turbine/graph_classe/dataflow.py:80-102 | the default name is `"t" + str(task_key)`; a name already in use leaves the graph unchanged and raises `KeyError`, since each class hands the base method's `None` to its duration or phase-count setter; otherwise the task gets the next id, is indexed by name, and the counter advances |
| Dataflow.DataflowGraph.GetTaskByName | Turbine/graph_classe/dataflow.py:115-122 | answers the id of a task with that name iff one exists, `KeyError` otherwise |
| Dataflow.DataflowGraph.AddArc | Turbine/graph_classe/dataflow.py:269-298 | returns `(source, target, key)`, appends exactly the new arc, advances the arc counter and changes no task |
| Dataflow.DataflowGraph.SetInitialMarking | Turbine/graph_classe/dataflow.py:450-459 | only the marking of that arc changes |
| Dataflow.DataflowGraph.SetTokenSize | Turbine/graph_classe/dataflow.py:461-470 | only the token size of that arc changes |
| Dataflow.DataflowGraph.SetRepetitionFactor | Turbine/graph_classe/dataflow.py:242-250 | only the repetition factor of that task changes |
| Dataflow.DataflowGraph.SetTaskDuration | Turbine/graph_classe/sdf.py:75-80 | only the duration of that task changes |
| Dataflow.DataflowGraph.SetConsRate | Turbine/graph_classe/sdf.py:105-116 | only that arc changes: its consumption rate, and its gcd becomes `gcd(cons, prod)` |
| Dataflow.DataflowGraph.SetProdRate | Turbine/graph_classe/sdf.py:118-129 | only that arc changes: its production rate, and its gcd becomes `gcd(cons, prod)` |
| Dataflow.DataflowGraph.SetConsRateList | Turbine/graph_classe/pcg.py:165-177 | only that arc changes, as the graph's class sets it: CSDF list and gcd, or for PCG also the thresholds and the PCG gcd |
| Dataflow.DataflowGraph.SetProdRateList | Turbine/graph_classe/csdf.py:171-182 | only that arc changes, by the CSDF setter for both classes (the PCG class does not override it) |
| Dataflow.DataflowGraph.SetIniConsRateList | Turbine/graph_classe/pcg.py:179-182 | only that arc changes: its initial consumption list, the same list as initial thresholds, and the PCG gcd |
| Dataflow.DataflowGraph.SetIniProdRateList | Turbine/graph_classe/pcg.py:184-186 | only that arc changes: its initial production list and the PCG gcd |
| Dataflow.DataflowGraph.SetThresholdList | Turbine/graph_classe/pcg.py:188-190 | only that arc changes: its threshold list and the PCG gcd |
| Dataflow.DataflowGraph.SetIniThresholdList | Turbine/graph_classe/pcg.py:192-194 | only that arc changes: its initial threshold list and the PCG gcd |
| Dataflow.DataflowGraph.SetPhaseCount | Turbine/graph_classe/csdf.py:77-102 | an unchanged count changes nothing; otherwise the durations become `[1] * n` and every incident arc is reset as `ResetArc` says, the arcs staying well formed |
| Dataflow.DataflowGraph.SetPhaseDurationList | Turbine/graph_classe/csdf.py:104-133 | the list is stored iff its length is the phase count; otherwise the length error is raised and nothing changes |
| Dataflow.DataflowGraph.SetIniPhaseCount | Turbine/graph_classe/pcg.py:76-101 | an unchanged count changes nothing; otherwise the initial durations become `[1] * n` and the initial lists of every incident arc are reset |
| Dataflow.DataflowGraph.SetIniPhaseDurationList | Turbine/graph_classe/pcg.py:103-133 | the list is stored iff its length is the initial phase count; otherwise the length error is raised and nothing changes |
| Dataflow.DataflowGraph.GetTotInitialMarking | Turbine/graph_classe/dataflow.py:542-546 | the sum of the markings of all arcs |
| Dataflow.DataflowGraph.DelInitialMarking | Turbine/graph_classe/dataflow.py:583-588 | every marking becomes 0 (so the total is 0) and nothing else changes |
| Dataflow.DataflowGraph.IsReentrantScan | Turbine/graph_classe/dataflow.py:604-612 | the early-exit scan answers exactly whether some arc is a self-loop |
| Dataflow.DataflowGraph.IsMultiGraphScan | Turbine/graph_classe/dataflow.py:593-602 | the early-exit scan answers exactly whether some pair is joined twice in one direction |
| Dataflow.DataflowGraph.IsBoundedScan | Turbine/graph_classe/dataflow.py:623-638 | the early-exit scan answers exactly whether no arc is alone on its pair with no arc going back |
| Dataflow.DataflowGraph.IsCyclicScan | Turbine/graph_classe/dataflow.py:614-620 | answers reentrant-or-not-acyclic |
| Dataflow.SameEndpointsCount | Turbine/graph_classe/dataflow.py:356-358 | the number of arcs on a pair depends only on the ends of the arcs, so rate and marking updates keep every key |
| RepetitionVector.Leaving | Turbine/algorithms/rv.py:18 | `get_arc_list(source=a)` lists only arcs leaving `a`, in order |
| RepetitionVector.Entering | Turbine/algorithms/rv.py:18 | `get_arc_list(target=a)` lists only arcs entering `a`, in order |
| RepetitionVector.LeavingComplete | Turbine/algorithms/rv.py:18 | every arc leaving `a` is listed |
| RepetitionVector.EnteringComplete | Turbine/algorithms/rv.py:18 | every arc entering `a` is listed |
| RepetitionVector.Incident | Turbine/algorithms/rv.py:18 | the propagation from `a` visits the leaving arcs, then the entering ones, all of them incident to `a` |
| RepetitionVector.IncidentComplete | Turbine/algorithms/rv.py:18 | every arc at `a` is visited by the propagation from `a` |
| RepetitionVector.PassedNonZero | Turbine/algorithms/rv.py:41-42 | the fraction `fraction_a * Fraction(rate_a, rate_b)` passed to a neighbour is nonzero when `fraction_a` and both rates are |
| RepetitionVector.Walk | Turbine/algorithms/rv.py:9-56 | the recursive propagation never overwrites a fraction already reached (nonzero) |
| RepetitionVector.WalkFrom | Turbine/algorithms/rv.py:18-56 | the loop over the incident arcs never overwrites a fraction already reached |
| RepetitionVector.CalcFractionsConnectedActors | Turbine/algorithms/rv.py:9-56 | `calc_fractions_connected_actors`, mutating the fractions as it goes, returns what the recursive walk defines, both with the recursive result dropped (as written) and passed up |
| RepetitionVector.Unreached | Turbine/algorithms/rv.py:131-133 | every fraction starts at `Fraction(0, 1)` |
| RepetitionVector.Seed | Turbine/algorithms/rv.py:145-149 | seeding never overwrites a fraction already reached |
| RepetitionVector.SeedFractions | Turbine/algorithms/rv.py:131-149 | the seeding loop returns what the recursive seeding defines from the all-zero map |
| RepetitionVector.DoneKept | Turbine/algorithms/rv.py:46-54 | a task whose arcs are all balanced stays so while the walk only fills unreached fractions |
| RepetitionVector.PropagationCheck | Turbine/algorithms/rv.py:41-47 | the comparison `fraction_b != known_fraction_b` is exactly the balance equation of the arc read from `a`'s side |
| RepetitionVector.BalancedFrom | Turbine/algorithms/rv.py:21-36 | the swap of `rate_a`/`rate_b` on entering arcs makes the balance of an arc the same whichever endpoint reads it |
| RepetitionVector.WalkSound | Turbine/algorithms/rv.py:9-56 | a walk that passes failures up and succeeds balances every arc at `a` and at every task it reached |
| RepetitionVector.WalkFromSound | Turbine/algorithms/rv.py:18-56 | a successful loop balances every arc it visited and every arc of each task it reached |
| RepetitionVector.SeedSound | Turbine/algorithms/rv.py:145-149 | after a successful seeding every task is reached and all its arcs are balanced |
| RepetitionVector.SeedBalancesEveryArc | Turbine/algorithms/rv.py:131-149 | a successful seeding from the all-zero map reaches every task and balances every arc of the graph |
| RepetitionVector.AllDoneBalanced | Turbine/algorithms/rv.py:145-149 | once every task is reached and done, every arc is balanced |
| RepetitionVector.DenLcmFacts | Turbine/algorithms/rv.py:61-64 | the lcm of the denominators is positive and a multiple of every reduced denominator (so the `l == 0` error cannot happen) |
| RepetitionVector.Scaled | Turbine/algorithms/rv.py:70-71 | one integer per task |
| RepetitionVector.ReducedVector | Turbine/algorithms/rv.py:59-82 | when it answers, one entry per task, and the task list is not empty |
| RepetitionVector.CalcRepetitionVectorOf | Turbine/algorithms/rv.py:59-87 | when it answers, one entry per task, and the task list is not empty |
| RepetitionVector.ScaledValue | Turbine/algorithms/rv.py:71 | `numerator * l / denominator` is exact and equals the fraction times `l` when `l` is a multiple of the denominator |
| RepetitionVector.ReducedParts | Turbine/algorithms/rv.py:59-82 | the reduced vector is the scaled vector divided exactly by its positive gcd, computed as `gcd` folded from the first entry |
| RepetitionVector.ReducedBalanced | Turbine/algorithms/rv.py:59-82 | balanced fractions give an integer vector that balances every arc |
| RepetitionVector.ReducedCoprime | Turbine/algorithms/rv.py:73-82 | the reduced vector has no common divisor other than 1 and -1 (it is the smallest integer solution) |
| RepetitionVector.RatePeriodFacts | Turbine/algorithms/rv.py:135-140 | the rate period is positive (so the `rate_period <= 0` error cannot happen), is 1 for SDF, and is a multiple of the phase count at both ends of every arc |
| RepetitionVector.ArcEdge | Turbine/algorithms/rv.py:26-31 | the rates read off an arc keep its endpoints |
| RepetitionVector.Edges | Turbine/algorithms/rv.py:18-31 | one edge per arc, all between tasks of the graph |
| RepetitionVector.FactorDivisor | Turbine/algorithms/rv.py:165-168 | the divisor of each factor (`gcd_v`, or `phase_count * gcd_v`) is nonzero when `gcd_v` is |
| RepetitionVector.PerPhaseAll | Turbine/algorithms/rv.py:153-161 | one per-phase entry per task |
| RepetitionVector.FactorsOf | Turbine/algorithms/rv.py:163-171 | when no division by zero is raised, one factor per task |
| RepetitionVector.ComputeRepVectOf | Turbine/algorithms/rv.py:130-171 | when it answers factors, one per task |
| RepetitionVector.WithFactors | Turbine/algorithms/rv.py:169 | only the repetition factors of the tasks change, each to its computed value |
| RepetitionVector.FactorBalance | Turbine/algorithms/rv.py:163-168 | one arc stays balanced when both its ends are divided by the phase count and `gcd_v` |
| RepetitionVector.FactorGcdDivides | Turbine/algorithms/rv.py:153-161 | `gcd_v` divides every per-phase entry, so the last divisions are exact |
| RepetitionVector.SideOfArc | Turbine/algorithms/rv.py:30-31 | `rate_period / phase_count` is exact: the phase count times it gives back the rate period |
| RepetitionVector.ArcFactors | Turbine/algorithms/rv.py:163-170 | one arc is consistent, `sum(prod) * rf(src) == sum(cons) * rf(tgt)`, under the computed factors |
| RepetitionVector.ComputeRepVectConsistent | Turbine/algorithms/rv.py:130-171 | with failures passed up, the factors `compute_rep_vect` returns make the graph consistent |
| RepetitionVector.DenominatorLcm | Turbine/algorithms/rv.py:61-64 | the first loop computes the lcm of the reduced denominators |
| RepetitionVector.ScaleEntries | Turbine/algorithms/rv.py:70-71 | the second loop computes `numerator * l / denominator` of every fraction |
| RepetitionVector.GcdEntries | Turbine/algorithms/rv.py:73-76 | the gcd loop computes `gcd` folded over the entries, from the first entry |
| RepetitionVector.DivideEntries | Turbine/algorithms/rv.py:81-82 | each entry is floor-divided by the gcd |
| RepetitionVector.MultiplyEntries | Turbine/algorithms/rv.py:84-85 | each entry is multiplied by the rate period |
| RepetitionVector.CalcRepetitionVector | Turbine/algorithms/rv.py:59-87 | `calc_repetition_vector`, with its `ValueError`s, computes the reference definition |
| RepetitionVector.ComputeRatePeriod | Turbine/algorithms/rv.py:135-140 | the loop computes the lcm of the phase counts at both ends of every arc (1 for SDF) |
| RepetitionVector.FactorGcd | Turbine/algorithms/rv.py:153-161 | the loop computes `gcd` folded over the per-phase entries from the first task's |
| RepetitionVector.StoreFactors | Turbine/algorithms/rv.py:163-171 | each task's factor is `z[v] / (phase_count * gcd_v)` and is stored, the rest of the graph unchanged |
| RepetitionVector.VectorOf | Turbine/algorithms/rv.py:130-161 | the vector, `gcd_v` and the factors agree with the reference definition, and so do its failures |
| RepetitionVector.ComputeRepVect | Turbine/algorithms/rv.py:130-171 | on success every task's factor is stored and the graph is consistent under them; on failure the graph is unchanged |
| RepetitionVector.ExampleWalk | Turbine/algorithms/rv.py:52-54 | on the three-task example, the walk as written drops each recursive failure and reports success |
| RepetitionVector.ExampleRefused | Turbine/algorithms/rv.py:52-54 | with failures passed up, the same example is refused |
| RepetitionVector.RepVectAsWrittenAcceptsInconsistent | Turbine/algorithms/rv.py:52 | `compute_rep_vect` as written stores factors `[1, 1, 1]` on a graph that they leave inconsistent; with failures passed up it answers not consistent |
| Normalization.ScaleList | Turbine/algorithms/normalized.py:56-57 | `[int(x * coef) for x in l]` keeps the length of the list |
| Normalization.TestCoef | Turbine/algorithms/normalized.py:143-147 | `__test_coef` is true iff `coef` times every entry is an integer |
| Normalization.ScaledMarking | Turbine/algorithms/normalized.py:47-50 | the new marking is the ceiling of `m0 * coef`: the least integer at or above it (`int` when exact, `ceil` otherwise) |
| Normalization.MultiplyArcOf | Turbine/algorithms/normalized.py:46-62 | `multiply_arc` keeps the arc's lists shaped by the phase counts |
| Normalization.MultiplyArcFields | Turbine/algorithms/normalized.py:46-62 | `multiply_arc` keeps ends, key, name and token size, rounds the marking up, truncates every rate times `coef`; on PCG it scales the initial lists and, as written, gives the thresholds the already scaled consumption lists scaled once more |
| Normalization.LcmRfFacts | Turbine/algorithms/normalized.py:74-77 | with positive repetition factors, `lcm_rf` is positive and a multiple of every factor |
| Normalization.BaseCoefs | Turbine/algorithms/normalized.py:78-86 | one coefficient `Fraction(zi, rate)` per arc, or the `ZeroDivisionError` of the first arc with rate 0 |
| Normalization.WidenBy | Turbine/algorithms/normalized.py:89-90 | `lcm(lcm_post_mult, denominator)` is positive and a multiple of both |
| Normalization.PhaseLcm | Turbine/algorithms/normalized.py:88-90 | the per-arc loop keeps `lcm_post_mult` positive |
| Normalization.PostLcm | Turbine/algorithms/normalized.py:78-90 | `lcm_post_mult` stays positive over all arcs |
| Normalization.NormalizedVectorOf | Turbine/algorithms/normalized.py:65-93 | `get_normalized_vector` gives one coefficient per arc |
| Normalization.MultiplyPrefix | Turbine/algorithms/normalized.py:22-23 | the loop multiplies the first `n` arcs by their coefficients and leaves the rest, the tasks and every arc's ends alone |
| Normalization.Inverted | Turbine/algorithms/normalized.py:25-26 | the inverted vector has one entry per arc |
| Normalization.NormalizedOf | Turbine/algorithms/normalized.py:7-27 | `normalized_dataflow` keeps the tasks and the number of arcs and keeps every arc shaped |
| Normalization.AfterVector | Turbine/algorithms/normalized.py:22-27 | multiplying by a given vector keeps the tasks and the arcs' shapes |
| Normalization.TestCoefVector | Turbine/algorithms/normalized.py:112-140 | accepting needs one coefficient per arc; with the check of every arc it accepts iff each coefficient keeps every list of its arc integral |
| Normalization.RdmVector | Turbine/algorithms/normalized.py:96-109 | one coefficient `Fraction(draw, gcd)` per arc; it raises exactly when some arc's gcd is 0 |
| Normalization.MultiplyPrefixKeepsShape | Turbine/algorithms/normalized.py:22-23 | multiplying arcs keeps the graph shaped and every arc's ends |
| Normalization.NormalizedKeepsShape | Turbine/algorithms/normalized.py:7-27 | normalization keeps the graph shaped and every arc's ends |
| Normalization.ScaleSum | Turbine/algorithms/normalized.py:56-57 | when every entry scales exactly, the sum of the scaled list is `coef` times the sum |
| Normalization.PhaseLcmFacts | Turbine/algorithms/normalized.py:88-90 | after an arc's loop every phase scales exactly or the denominator divides `lcm_post_mult` |
| Normalization.PostLcmFacts | Turbine/algorithms/normalized.py:78-90 | after all arcs, every phase of every arc scales exactly or its coefficient's denominator divides `lcm_post_mult` |
| Normalization.PostMult | Turbine/algorithms/normalized.py:75-90 | the post multiplier is positive |
| Normalization.VectorEntry | Turbine/algorithms/normalized.py:74-92 | entry `i` of the vector is `Fraction(lcm_rf / rf(src), sum(prod)) * lcm_post_mult`, the post multiplier 1 on SDF |
| Normalization.VectorExact | Turbine/algorithms/normalized.py:65-93 | on a consistent graph with positive rates every coefficient keeps the production and consumption lists of its arc integral |
| Normalization.ArcWeights | Turbine/algorithms/normalized.py:52-57 | the multiplied arc produces `zi * lcm_post_mult` and consumes `lcm_post_mult * b` |
| Normalization.NormalizedArcWeights | Turbine/algorithms/normalized.py:22-23 | after multiplication each arc's production is `lcm_post_mult * lcm_rf / rf(src)` and its consumption `lcm_post_mult * lcm_rf / rf(tgt)`; the coefficient is nonzero |
| Normalization.SideRatesConst | Turbine/graph_classe/csdf.py:246-261 | when every arc at a task carries the same weight, the rates the normalization test compares are all equal |
| Normalization.NormalizeMakesNormalized | Turbine/algorithms/normalized.py:7-27 | on a consistent, not yet normalized graph with positive rates and no isolated task, `normalized_dataflow` answers a vector and leaves a normalized graph |
| Normalization.VectorNonZero | Turbine/algorithms/normalized.py:25-26 | every coefficient is nonzero, so the inversion `Fraction(1, c)` never divides by zero |
| Normalization.MultipliedWeights | Turbine/algorithms/normalized.py:22-23 | after multiplication every arc's weights are the normalized weights of its ends |
| Normalization.WeightsNormalized | Turbine/graph_classe/csdf.py:246-261 | a graph whose arcs carry, at each task, that task's weight is normalized |
| Normalization.MultipliedNormalized | Turbine/algorithms/normalized.py:19-23 | multiplying by `get_normalized_vector` normalizes the graph |
| Normalization.EntryRoundTrip | Turbine/algorithms/normalized.py:26 | an entry scaled exactly by `c` and then by `1/c` comes back |
| Normalization.ListRoundTrip | Turbine/algorithms/normalized.py:56-57 | a list scaled exactly by `c` and then by `1/c` comes back |
| Normalization.MarkingRoundTrip | Turbine/algorithms/normalized.py:47-50 | a marking scaled exactly by `c` and then by `1/c` comes back |
| Normalization.ArcRoundTrip | Turbine/algorithms/normalized.py:46-62 | an arc multiplied exactly by `c` accepts `1/c`, and multiplying by it restores the arc, the gcd being recomputed by the setters |
| Normalization.NormalizeRoundTrip | Turbine/algorithms/normalized.py:7-43 | when the coefficients are exact on every list and marking, un-normalizing with the vector `normalized_dataflow` returns restores every arc except its cached gcd |
| Normalization.InvertedRestores | Turbine/algorithms/normalized.py:25-26 | the inverted vector is accepted by the normalized graph and restores each arc |
| Normalization.RdmEntryExact | Turbine/algorithms/normalized.py:108 | `Fraction(r, gcd)` keeps every multiple of the gcd integral |
| Normalization.RdmListExact | Turbine/algorithms/normalized.py:108 | `Fraction(r, gcd)` keeps a list of multiples of the gcd integral |
| Normalization.RdmVectorAccepted | Turbine/algorithms/normalized.py:96-109 | when every stored gcd is nonzero and divides its arc's entries, the random vector answers and passes the coefficient test |
| Normalization.UnNormalizeRestoresRates | Turbine/algorithms/normalized.py:7-43 | on SDF and CSDF graphs the round trip always restores every rate list, and the marking becomes the marking rounded up twice |
| Normalization.RatesRestored | Turbine/algorithms/normalized.py:22-26 | the inverted vector is accepted and restores every rate list, whatever the marking does |
| Normalization.RoundTripChangesMarking | Turbine/algorithms/normalized.py:47-48 | rounding up is not invertible: marking 1 scaled by 1/2 and back becomes 2 |
| Normalization.ThresholdsSquared | Turbine/algorithms/normalized.py:57-61 | on PCG, multiplying by 3 an arc with consumption `[1]` and threshold `[2]` makes the threshold `[9]`: the consumption setter has already replaced it by the scaled consumption, which is scaled again |
| Normalization.ThresholdsScaledOnce | Turbine/algorithms/normalized.py:59-62 | with the thresholds scaled once, multiplying by 3 an arc with threshold `[2]` makes it `[6]` |
| Normalization.TestCoefVectorFirstArcOnly | Turbine/algorithms/normalized.py:116-140 | as written the test returns after the first arc: it accepts a vector that the second arc refuses, and refuses (answers `None` for) every vector of a graph without arcs |
| Normalization.FirstArcOnlyTruncates | Turbine/algorithms/normalized.py:30-43 | that accepted vector makes `un_normalized_dataflow` truncate the second arc's rates to 0 |
| Normalization.FirstArcOnlyPasses | Turbine/algorithms/normalized.py:36-43 | `un_normalized_dataflow` accepts that vector and multiplies both arcs |
| Normalization.SecondArcTruncates | Turbine/algorithms/normalized.py:42-43 | the second arc ends with rates `[0]` |
| Normalization.HalfTruncates | Turbine/algorithms/normalized.py:53-54 | `int(1 * 1/2)` truncates a rate 1 to 0 |
| Normalization.ParallelExampleNormalized | Turbine/graph_classe/sdf.py:200-216 | the two-arc example graph is normalized, so `un_normalized_dataflow` goes on |
| NormalizeOps.TestCoefScan | Turbine/algorithms/normalized.py:143-147 | the early-exit loop of `__test_coef` answers the coefficient test |
| NormalizeOps.MultiplyArc | Turbine/algorithms/normalized.py:46-62 | `multiply_arc` on the graph object rewrites only that arc, to the arc `MultiplyArcOf` defines, and keeps the graph valid |
| NormalizeOps.ScaleMarking | Turbine/algorithms/normalized.py:47-50 | only that arc's marking changes, to the rounded-up scaled marking |
| NormalizeOps.ScaleRates | Turbine/algorithms/normalized.py:52-57 | only that arc's rates change, through the setters of the graph's class |
| NormalizeOps.ScalePcgLists | Turbine/algorithms/normalized.py:58-62 | only that arc's initial and threshold lists change, through the PCG setters |
| NormalizeOps.ScaleLists | Turbine/algorithms/normalized.py:52-62 | the rate setters, then (on PCG) the initial and threshold setters, rewrite only that arc |
| NormalizeOps.MultiplyArcs | Turbine/algorithms/normalized.py:22-23 | the loop over the arcs leaves the graph `MultiplyPrefix` defines |
| NormalizeOps.LcmRfErrorSticks | Turbine/algorithms/normalized.py:76-77 | once `lcm` raises on a zero repetition factor, the whole loop raises |
| NormalizeOps.WidenAtPhases | Turbine/algorithms/normalized.py:88-90 | the phase loop computes the post multiplier the reference definition gives |
| NormalizeOps.LcmRfScan | Turbine/algorithms/normalized.py:74-77 | the task loop computes `lcm_rf` or its error |
| NormalizeOps.BaseCoefsScan | Turbine/algorithms/normalized.py:78-90 | the arc loop computes every `Fraction(zi, rate)` (or the error) and `lcm_post_mult` (1 on SDF) |
| NormalizeOps.ScaleCoefs | Turbine/algorithms/normalized.py:91-92 | every coefficient is multiplied by `lcm_post_mult` |
| NormalizeOps.GetNormalizedVector | Turbine/algorithms/normalized.py:65-93 | `get_normalized_vector` computes the reference vector or its error |
| NormalizeOps.RdmUnNormalizedVector | Turbine/algorithms/normalized.py:96-109 | `get_rdm_un_normalized_vector`, the draws given, computes `Fraction(draw, gcd)` per arc or the division error |
| NormalizeOps.TestCoefVectorScan | Turbine/algorithms/normalized.py:112-140 | the loop answers the coefficient-vector test, as written or with every arc checked |
| NormalizeOps.NormalizedDataflow | Turbine/algorithms/normalized.py:7-27 | `normalized_dataflow` answers and leaves the graph as `NormalizedOf` defines: `RuntimeError` when inconsistent, nothing when normalized, otherwise the inverted vector |
| NormalizeOps.MultiplyAndInvert | Turbine/algorithms/normalized.py:22-27 | multiplies every arc and answers the inverted vector |
| NormalizeOps.InvertCoefs | Turbine/algorithms/normalized.py:25-26 | the inversion answers iff no coefficient is zero, and then gives `1/c` of each |
| NormalizeOps.UnNormalizedDataflow | Turbine/algorithms/normalized.py:30-43 | `un_normalized_dataflow` answers and leaves the graph as `UnNormalizedOf` defines: nothing when not normalized, the exception for a refused vector, otherwise every arc multiplied |
| PhaseWeights.PhaseRange | Turbine/generation/marking_computation.py:125-129 | the phases a task runs through: its phase count plus, on PCG, its initial phase count |
| PhaseWeights.ArcListsFit | Turbine/generation/marking_computation.py:120-132 | the production, consumption (and PCG threshold) lists of an arc, initial phases first, are as long as the phase ranges of its ends |
| PhaseWeights.RunningMaxIsMax | Turbine/generation/marking_computation.py:134-150 | the running maximum is at least the start value and every phase's need, and is one of them |
| PhaseWeights.WalkMax | Turbine/generation/marking_computation.py:134-150 | the phase loop with `pred_out`, `pred_in` and `in_v` computes the running maximum of the needs |
| PhaseWeights.RunningStep | Turbine/generation/marking_computation.py:139-147 | one loop step keeps `pred_out`, `pred_in`, `in_v` equal to the prefix sums, and `w` is that phase's need (with the threshold term on PCG) |
| MarkingComputation.Cs2RowCountScan | Turbine/generation/marking_computation.py:65-76 | the loops of `__cs2_row_count` compute the written estimate |
| MarkingComputation.Cs2RowCount | Turbine/algorithms/solve_SC2.py:66-76 | the SC2 estimate as the solver builds it: the number of rows of the SC2 program |
| MarkingComputation.Cs2AsWrittenWithoutLoops | Turbine/generation/marking_computation.py:65-76 | without self-loops the written estimate is the solver's row count |
| MarkingComputation.Cs2TaskAsWrittenOvercounts | Turbine/generation/marking_computation.py:74-75 | at a task with a self-loop, two other inputs and one other output, the written estimate counts 3 pair rows while the solver builds 2 |
| MarkingComputation.Sc1RowCountScan | Turbine/generation/marking_computation.py:79-93 | the loop of `__sc1_row_count` computes the written estimate |
| MarkingComputation.Sc1CountIsRows | Turbine/algorithms/solve_SC1.py:82-101 | the corrected estimate is the number of weight rows the SC1 solver builds |
| MarkingComputation.Sc1RowCount | Turbine/algorithms/solve_SC1.py:82-101 | the SC1 estimate as the solver builds it |
| MarkingComputation.Sc1ArcOutsidePcg | Turbine/generation/marking_computation.py:79-93 | outside PCG one arc adds the product of its endpoints' phase counts, or nothing for a self-loop |
| MarkingComputation.Sc1AsWrittenOutsidePcg | Turbine/generation/marking_computation.py:79-93 | outside PCG the written estimate is the solver's weight-row count |
| MarkingComputation.Sc1AsWrittenPcgArc | Turbine/generation/marking_computation.py:87-92 | on PCG, since `is_csdf` is also true, a non-reentrant arc counts the CSDF product plus the PCG product, more than the PCG product the solver builds |
| MarkingComputation.CountsKept | Turbine/generation/marking_computation.py:18 | clearing the markings changes neither row estimate |
| MarkingComputation.Choose | Turbine/generation/marking_computation.py:19-52 | `None`/`"None"` picks nothing; an unknown name or SC2_MIP with a period raises `RuntimeError`; a period never leaves plain SC1; `"Auto"` picks SC1 Kc with a period, else SC2 iff its estimate is smaller than SC1's |
| MarkingComputation.ReentrantMarkingIsMax | Turbine/generation/marking_computation.py:118-151 | the marking of a self-loop is the largest of `cons_list[0]` and every phase's need, and is one of them |
| MarkingComputation.PrefixMaxTotalBound | Turbine/generation/marking_computation.py:151-152 | the added total is non-negative and at least the final maximum (the loop adds `ret_max` once per phase) |
| MarkingComputation.TotalStep | Turbine/generation/marking_computation.py:149-152 | one phase updates the maximum and adds it to the total |
| MarkingComputation.WalkReentrant | Turbine/generation/marking_computation.py:134-152 | the loop computes the final maximum and the sum of the maxima after each phase |
| MarkingComputation.MarkingsKeepShape | Turbine/generation/marking_computation.py:110 | changing only markings keeps the graph shaped and every self-loop's marking formula |
| MarkingComputation.ReentrantTotalKept | Turbine/generation/marking_computation.py:116-155 | the total does not depend on the markings |
| MarkingComputation.CalcReentrant | Turbine/generation/marking_computation.py:116-155 | `__calc_reentrant` sets every self-loop's marking to its formula, keeps the other arcs, and returns the total |
| MarkingComputation.MarkAll | Turbine/generation/marking_computation.py:118-155 | the arc loop marks every self-loop so far and adds up the totals |
| MarkingComputation.MarkOne | Turbine/generation/marking_computation.py:119-153 | one arc: a self-loop gets its marking and adds its total, any other arc is left alone |
| MarkingComputation.Normalize | Turbine/generation/marking_computation.py:14-16 | the normalization step passes on `is_normalized`'s error and leaves a normalized graph alone, changing nothing in either case; otherwise the graph becomes the one `normalized_dataflow` builds and the step returns its coefficient vector or error |
| MarkingComputation.Clear | Turbine/generation/marking_computation.py:18 | `del_initial_marking` zeroes every marking and keeps everything else |
| MarkingComputation.Prepare | Turbine/generation/marking_computation.py:14-18 | normalization when needed then clearing: an `is_normalized` error is passed on, a normalized graph only loses its markings, and the solvers' row counts do not change |
| MarkingComputation.Dispatch | Turbine/generation/marking_computation.py:19-52 | the dispatch answers the choice `Choose` defines from the solvers' row counts |
| MarkingComputation.RunSolver | Turbine/generation/marking_computation.py:55 | the SC1 and SC2 programs' rounded solutions are written to the markings; the other solvers are not modelled and change nothing |
| MarkingComputation.RunSc1 | Turbine/algorithms/solve_SC1.py:196-208 | every marking becomes the SC1 rounding of the solution |
| MarkingComputation.RunSc2 | Turbine/algorithms/solve_SC2.py:134-150 | every marking becomes the SC2 rounding of the solution |
| MarkingComputation.Mark | Turbine/generation/marking_computation.py:55-57 | after the solver and `__calc_reentrant` every marking is its final value and the total is the self-loops' total |
| MarkingComputation.FinalMarkings | Turbine/generation/marking_computation.py:55-57 | the solver step followed by the self-loop step gives the final marking of each arc |
| MarkingComputation.ClearedKeepsFinal | Turbine/generation/marking_computation.py:18 | the final markings and the total do not depend on the markings cleared first |
| MarkingComputation.ComputeInitialMarking | Turbine/generation/marking_computation.py:11-62 | returns the chosen solver (or its error); picking none leaves every marking 0; on a normalized graph every marking ends at its final value and the total is the self-loops' total |
| MarkingComputation.MarkAndFinish | Turbine/generation/marking_computation.py:55-62 | the solver's run, the self-loop markings and the un-normalization; on a graph that was normalized from the start every marking ends at its final value |
| MarkingComputation.Finish | Turbine/generation/marking_computation.py:61-62 | un-normalization happens only when the graph was normalized here: with a coefficient vector the graph and the error are exactly those `un_normalized_dataflow` gives, and without one nothing changes |
| SolveSc1.PhaseTotalSdf | Turbine/algorithms/solve_SC1.py:43-50 | on SDF the phase total is the task count |
| SolveSc1.TaskColumns | Turbine/algorithms/solve_SC1.py:76-78 | a task gets one column `task/i` per phase in its range, in phase order |
| SolveSc1.VColumns | Turbine/algorithms/solve_SC1.py:69-78 | the phase columns number the phase total |
| SolveSc1.M0Columns | Turbine/algorithms/solve_SC1.py:59-62 | one M0 column per arc |
| SolveSc1.Fm0Columns | Turbine/algorithms/solve_SC1.py:64-67 | one FM0 column per arc |
| SolveSc1.VColumnAt | Turbine/algorithms/solve_SC1.py:69-78 | phase `p` of task `t` sits after the phases of the earlier tasks |
| SolveSc1.ColumnOfPhase | Turbine/algorithms/solve_SC1.py:58-78 | the column of phase `p` of task `t` is `2 * arc_count + (phases of earlier tasks) + p`, inside the column count |
| SolveSc1.CountColumns | Turbine/algorithms/solve_SC1.py:43-52 | `col_count` is twice the arc count plus the phase total, the number of columns created |
| SolveSc1.NamePhaseColumns | Turbine/algorithms/solve_SC1.py:69-78 | the loop names the phase columns in order |
| SolveSc1.StepRows | Turbine/algorithms/solve_SC1.py:119-123 | every step row belongs to a non-reentrant arc |
| SolveSc1.CellRow | Turbine/algorithms/solve_SC1.py:147-160 | each weight row is well formed: its arc is not a self-loop and its phases are in range |
| SolveSc1.TargetRows | Turbine/algorithms/solve_SC1.py:147-160 | one row per target phase, in order |
| SolveSc1.SourceRows | Turbine/algorithms/solve_SC1.py:141-160 | an arc gives `range_source * range_target` well-formed rows |
| SolveSc1.PhaseRows | Turbine/algorithms/solve_SC1.py:128-160 | every weight row is well formed and belongs to an earlier arc |
| SolveSc1.PhaseRowsNameColumns | Turbine/algorithms/solve_SC1.py:156-159 | the names `source/phase` and `target/phase` a weight row refers to are phase columns that exist |
| SolveSc1.CountRows | Turbine/algorithms/solve_SC1.py:82-101 | `f_row_count` and `row_count` are the numbers of step rows and weight rows built |
| SolveSc1.FillStepRows | Turbine/algorithms/solve_SC1.py:119-123 | the loop builds the step rows and uses 2 matrix entries per row |
| SolveSc1.FillTargetRows | Turbine/algorithms/solve_SC1.py:145-160 | the inner loop builds the rows of one source phase with `w = cons - pred_prod - gcd` (PCG adds `pred_cons + threshold - cons`) and uses 3 entries per row |
| SolveSc1.FillArcRows | Turbine/algorithms/solve_SC1.py:140-160 | both loops build the rows of one arc |
| SolveSc1.FillPhaseRows | Turbine/algorithms/solve_SC1.py:128-160 | the arc loop builds all weight rows, 3 entries per row |
| SolveSc1.RevisedMarkings | Turbine/algorithms/solve_SC1.py:196-208 | when the step rows hold, every revised marking is a multiple of the gcd and lies in `[M0, M0 + gcd)`: the rounding never lowers the solver's marking |
| SolveSc1.SolverSc1.constructor | Turbine/algorithms/solve_SC1.py:6-13 | a solver starts with no column and no row |
| SolveSc1.SolverSc1.CreateCol | Turbine/algorithms/solve_SC1.py:41-78 | `__create_col` creates the M0, FM0 and phase columns and counts them |
| SolveSc1.SolverSc1.CreateRow | Turbine/algorithms/solve_SC1.py:80-160 | `__create_row` builds the step and weight rows, and the entries fill `varArraySize - 1` exactly |
| SolveSc1.SolverSc1.SolveProb | Turbine/algorithms/solve_SC1.py:196-208 | each non-reentrant arc gets `int(M0)` when FM0 is integral, `int(FM0 + 1) * gcd` otherwise; self-loops keep their marking |
| SolveSc1.SolverSc1.ComputeInitialMarking | Turbine/algorithms/solve_SC1.py:15-21 | columns, rows and the revised markings, as the three steps give them |
| SolveSc2.M0Columns | Turbine/algorithms/solve_SC2.py:49-52 | the first block holds one M0 column per arc, in arc order |
| SolveSc2.Fm0Columns | Turbine/algorithms/solve_SC2.py:54-57 | the second block holds one FM0 column per arc, in arc order |
| SolveSc2.VColumns | Turbine/algorithms/solve_SC2.py:59-62 | the third block holds one lambda column per arc, in arc order |
| SolveSc2.Columns | Turbine/algorithms/solve_SC2.py:40-62 | the problem has exactly three columns per arc, M0 of arc i at i, FM0 at arc count + i and lambda at twice the arc count + i |
| SolveSc2.LoopIsReentrant | Turbine/algorithms/solve_SC2.py:70-72 | an arc counts as a self-loop exactly when it is reentrant (source equals target) |
| SolveSc2.LoopsAppend | Turbine/algorithms/solve_SC2.py:70-72 | counting reentrant arcs over one more arc adds one exactly when that arc is reentrant |
| SolveSc2.LoopsInArcs | Turbine/algorithms/solve_SC2.py:68-72 | the reentrant arcs among a task's input arcs are exactly its self-loops |
| SolveSc2.LoopsOutArcs | Turbine/algorithms/solve_SC2.py:75-76 | the reentrant arcs among a task's output arcs are the same self-loops, so the subtraction on the output degree is sound |
| SolveSc2.LoopsByTask | Turbine/algorithms/solve_SC2.py:66-73 | summing each task's self-loops over all tasks gives the total number of reentrant arcs removed from the step-row count |
| SolveSc2.GetMax | Turbine/algorithms/solve_SC2.py:216-252 | the loop returns the largest per-phase need of the consumer over the pair of arcs, starting from the first consumption rate (PCG needs include the thresholds) |
| SolveSc2.PairMaxAsWrittenMisses | Turbine/algorithms/solve_SC2.py:227-230 | with initial phases prepended to the rates but appended to the thresholds, a PCG pair gets 5 where the aligned thresholds give 6 |
| SolveSc2.StepRows | Turbine/algorithms/solve_SC2.py:94-98 | one `FM0*step = M0` row per non-reentrant arc: the number of rows is the arc count minus the reentrant arcs |
| SolveSc2.OutPairs | Turbine/algorithms/solve_SC2.py:107-116 | for one input arc, one row per non-reentrant output arc of its target; each pairs that arc with an arc leaving the same task |
| SolveSc2.InPairs | Turbine/algorithms/solve_SC2.py:104-116 | every pair built for a task joins an arc entering the task with an arc leaving it |
| SolveSc2.InPairsCount | Turbine/algorithms/solve_SC2.py:74-76 | a task produces (input degree − self-loops) × (output degree − self-loops) pair rows, the count the source reserves |
| SolveSc2.TaskPairList | Turbine/algorithms/solve_SC2.py:103-116 | the pairs of a task all join an input arc of the task to an output arc of the task |
| SolveSc2.TaskPairCount | Turbine/algorithms/solve_SC2.py:68-76 | the rows filled for a task are exactly as many as the counting loop reserves for it |
| SolveSc2.AllPairsCount | Turbine/algorithms/solve_SC2.py:67-80 | over all tasks the pair rows filled equal the row count reserved before filling |
| SolveSc2.PairRowsStep | Turbine/algorithms/solve_SC2.py:103-116 | the pair rows of the first t + 1 tasks are those of the first t followed by task t's rows, in task order |
| SolveSc2.InRowsStep | Turbine/algorithms/solve_SC2.py:104-106 | a reentrant input arc adds no rows; any other adds the rows of its pairs with the task's output arcs |
| SolveSc2.OutRowsStep | Turbine/algorithms/solve_SC2.py:107-116 | a reentrant output arc adds no row; any other adds exactly one row with weight max − step for its pair |
| SolveSc2.CountStep | Turbine/algorithms/solve_SC2.py:69-76 | a task's counted self-loops also bound its output degree, and its contribution to the row count is the product of the reduced degrees |
| SolveSc2.Times | Turbine/algorithms/solve_SC2.py:74-76 | the product of the reduced input and output degrees, zero when either side is empty |
| SolveSc2.CountRows | Turbine/algorithms/solve_SC2.py:65-76 | the step-row count equals the number of step rows filled, and the pair-row count equals the total number of pairs over all tasks |
| SolveSc2.CountLoops | Turbine/algorithms/solve_SC2.py:69-72 | the loop counts exactly the reentrant arcs among the given arcs |
| SolveSc2.FillStepRows | Turbine/algorithms/solve_SC2.py:94-98 | fills exactly the step rows of the specification, two matrix entries per row |
| SolveSc2.FillOutRows | Turbine/algorithms/solve_SC2.py:107-116 | fills one row per pair of the input arc with a non-reentrant output arc, three matrix entries per row |
| SolveSc2.FillTaskRows | Turbine/algorithms/solve_SC2.py:104-116 | fills exactly the pair rows of one task, three matrix entries per row |
| SolveSc2.FillPairRows | Turbine/algorithms/solve_SC2.py:103-116 | fills exactly the pair rows of all tasks in task order, three matrix entries per row |
| SolveSc2.RevisedAsWrittenNotMultiple | Turbine/algorithms/solve_SC2.py:142-148 | for a fractional FM0 of 1/2 and step 2 the stored marking is 3, not a multiple of the step, while the revision that rounds FM0 first gives 2 |
| SolveSc2.SolverSc2.constructor | Turbine/algorithms/solve_SC2.py:8-15 | a fresh solver holds the graph and an empty problem |
| SolveSc2.SolverSc2.CreateCol | Turbine/algorithms/solve_SC2.py:40-62 | the problem gets exactly the three blocks of columns, and the rows are untouched |
| SolveSc2.SolverSc2.CreateRow | Turbine/algorithms/solve_SC2.py:64-117 | the problem gets the step rows followed by the pair rows, and every reserved matrix slot is filled |
| SolveSc2.SolverSc2.SolveProb | Turbine/algorithms/solve_SC2.py:119-150 | every non-reentrant arc gets the revised solver marking, rounded up to a multiple of the step when FM0 is fractional; reentrant arcs and the tasks are unchanged |
| SolveSc2.SolverSc2.ComputeInitialMarking | Turbine/algorithms/solve_SC2.py:17-23 | builds the columns and rows of the graph as given, then stores the revised marking on every arc |
| PeriodComputation.AminRoundsUp | Turbine/algorithms/period_computation.py:290-304 | amin is the smallest multiple of the gcd of the rate sums that is at least `ha + cjk − pjk − M0` |
| PeriodComputation.AmaxRoundsDown | Turbine/algorithms/period_computation.py:306-318 | amax is the largest multiple of the gcd of the rate sums that is at most `cjk − pprjk − M0 − 1` |
| PeriodComputation.WindowHoldsMultiple | Turbine/algorithms/period_computation.py:102 | the test `amin <= amax` holds exactly when some multiple of the gcd lies between the raw lower and upper bounds |
| PeriodComputation.CyclicTotalSdf | Turbine/algorithms/period_computation.py:58-63 | on SDF every task contributes one start column |
| PeriodComputation.TaskCols | Turbine/algorithms/period_computation.py:78-81 | a CSDF task gets one start column per phase, in phase order |
| PeriodComputation.StartCols | Turbine/algorithms/period_computation.py:74-81 | the start columns number the phase total of the tasks |
| PeriodComputation.StartColAt | Turbine/algorithms/period_computation.py:74-81 | the start of phase p of task t sits at the phase total of the earlier tasks plus p |
| PeriodComputation.ColumnOfPhase | Turbine/algorithms/period_computation.py:69-81 | after the N column at position 0, the start of phase p of task t is column 1 + phases before t + p |
| PeriodComputation.CountColumns | Turbine/algorithms/period_computation.py:56-63 | the counted column total equals the number of columns named |
| PeriodComputation.NameColumns | Turbine/algorithms/period_computation.py:67-81 | the loop names exactly the specified columns: N, then the task (or phase) starts in order |
| PeriodComputation.SdfRows | Turbine/algorithms/period_computation.py:134-141 | on SDF there is one main row per non-reentrant arc, carrying the arc's coefficient `Zj − M0 − gcd` and the source duration |
| PeriodComputation.SdfRowsComplete | Turbine/algorithms/period_computation.py:134-141 | every non-reentrant arc does get its SDF main row |
| PeriodComputation.CellRowsSound | Turbine/algorithms/period_computation.py:145-150 | every row emitted for a source phase is for a target phase whose window holds a multiple and whose coefficient is amax |
| PeriodComputation.ArcRowsSound | Turbine/algorithms/period_computation.py:143-150 | every row emitted for an arc is for a phase pair allowed on it (any pair, or i < j on a reentrant arc) whose window is not empty |
| PeriodComputation.CsdfRowsSound | Turbine/algorithms/period_computation.py:129-150 | every CSDF main row is for an allowed phase pair of some arc with a non-empty window, and carries that pair's amax and duration |
| PeriodComputation.CellRowsComplete | Turbine/algorithms/period_computation.py:145-150 | an allowed target phase with a non-empty window does get its row |
| PeriodComputation.ArcRowsComplete | Turbine/algorithms/period_computation.py:143-150 | every allowed phase pair of an arc with a non-empty window gets its row |
| PeriodComputation.CsdfRowsComplete | Turbine/algorithms/period_computation.py:129-150 | every allowed phase pair of every arc with a non-empty window gets its CSDF main row |
| PeriodComputation.ChainRows | Turbine/algorithms/period_computation.py:160-162 | phase p + 1 of a task starts no earlier than phase p ends, for every p below the last phase |
| PeriodComputation.TaskOverlapRows | Turbine/algorithms/period_computation.py:156-162 | a multi-phase task gets one row per phase: first the wrap-around row from the last phase to phase 0 (carrying the rate z on N), then the chain rows; a one-phase task gets none |
| PeriodComputation.OverlapRows | Turbine/algorithms/period_computation.py:155-162 | the non-overlap rows number the phase total of the multi-phase tasks |
| PeriodComputation.CountCells | Turbine/algorithms/period_computation.py:100-103 | counts exactly the rows that the fill loop emits for one source phase |
| PeriodComputation.CountArc | Turbine/algorithms/period_computation.py:96-103 | counts exactly the rows that the fill loop emits for one arc |
| PeriodComputation.CountRows | Turbine/algorithms/period_computation.py:84-107 | the main-row count equals the number of main rows filled; the non-overlap and multi-phase counts equal the phase total and number of multi-phase tasks on CSDF and are zero on SDF |
| PeriodComputation.CountSelfLoops | Turbine/algorithms/period_computation.py:90-93 | counts the reentrant arcs |
| PeriodComputation.CountCsdfRows | Turbine/algorithms/period_computation.py:95-103 | counts exactly the CSDF main rows later filled |
| PeriodComputation.CountMultiPhase | Turbine/algorithms/period_computation.py:104-107 | counts the multi-phase tasks and their total phases |
| PeriodComputation.FillSdfRows | Turbine/algorithms/period_computation.py:129-141 | fills exactly the SDF main rows, three matrix entries each |
| PeriodComputation.FillCells | Turbine/algorithms/period_computation.py:145-150 | fills exactly the rows of one source phase, three matrix entries each |
| PeriodComputation.FillArc | Turbine/algorithms/period_computation.py:143-150 | fills exactly the rows of one arc, three matrix entries each |
| PeriodComputation.FillCsdfRows | Turbine/algorithms/period_computation.py:142-150 | fills exactly the CSDF main rows, three matrix entries each |
| PeriodComputation.FillMainRows | Turbine/algorithms/period_computation.py:129-150 | fills the SDF or CSDF main rows according to the graph kind |
| PeriodComputation.FillTaskOverlap | Turbine/algorithms/period_computation.py:157-162 | fills one task's non-overlap rows, two entries each plus the N entry of the wrap-around row |
| PeriodComputation.FillOverlapRows | Turbine/algorithms/period_computation.py:155-162 | fills all non-overlap rows; the entries are two per row plus one per multi-phase task, matching the array size reserved at line 113-115 |
| PeriodComputation.StartsHold | Turbine/algorithms/period_computation.py:193-200 | every phase of every task read so far has a start time, namely the solver value of its column |
| PeriodComputation.StartsOnlyPhases | Turbine/algorithms/period_computation.py:193-200 | the start-time map has no key other than the task phases read |
| PeriodComputation.ReadStarts | Turbine/algorithms/period_computation.py:193-200 | the loop builds exactly the specified start-time map |
| PeriodComputation.NormalizedRates | Turbine/algorithms/period_computation.py:19-20 | in a normalized graph every task has at least one arc, and its rate sums are all equal |
| PeriodComputation.NormalizedNoIsolated | Turbine/algorithms/period_computation.py:19-20 | a normalized graph has no isolated task, so the rate z of lines 181-190 always exists |
| PeriodComputation.ComputePeriod.constructor | Turbine/algorithms/period_computation.py:22-27 | a fresh object holds the graph and an empty problem |
| PeriodComputation.ComputePeriod.CreateCol | Turbine/algorithms/period_computation.py:56-81 | the problem gets exactly the specified columns, and the rows are untouched |
| PeriodComputation.ComputePeriod.CreateRow | Turbine/algorithms/period_computation.py:83-162 | the problem gets the main rows then the non-overlap rows, and every reserved matrix slot is filled |
| PeriodComputation.ComputePeriod.SolveProb | Turbine/algorithms/period_computation.py:164-201 | a non-zero solver return is a RuntimeError; otherwise N is the solver value times the first task's repetition factor times its rate, and the starts are the solver values of the start columns |
| PeriodComputation.ComputePeriod.Compute | Turbine/algorithms/period_computation.py:29-37 | builds the problem of the graph, and succeeds exactly when the solver returns 0 on a graph with a task |
| PeriodComputation.NewComputePeriod | Turbine/algorithms/period_computation.py:15-27 | construction succeeds exactly when the graph is normalized; otherwise ValueError (or the error the normalization test raises) |
| Params.NonNegative | Turbine/param/parameters.py:335-338 | the check passes exactly for values ≥ 0 and otherwise raises the invalid-value error |
| Params.NonNull | Turbine/param/parameters.py:340-343 | the check passes exactly for values ≥ 1 and otherwise raises the invalid-value error |
| Params.NbTaskCheck | Turbine/param/parameters.py:75-77 | the task count is accepted exactly when it is at least 2 |
| Params.MaxTaskDegreeCheck | Turbine/param/parameters.py:91-93 | the maximum degree is accepted exactly when it is at least 2 |
| Params.MaxCheck | Turbine/param/parameters.py:108-110 | a maximum is accepted exactly when it is non-negative and not below the current minimum |
| Params.Defaults | Turbine/param/parameters.py:8-65 | the default settings satisfy every setter's own check, and every maximum (phase count, initial phase count, task degree) is at least its minimum |
| Params.MinAfterMaxUnchecked | Turbine/param/parameters.py:97-102 | the minimum phase count setter does not compare with the maximum: from the defaults every value above the maximum 5 is accepted and leaves the minimum above the maximum |
| Params.Parameters.constructor | Turbine/param/parameters.py:8-65 | a fresh object holds the default settings |
| Params.Parameters.SetNbTask | Turbine/param/parameters.py:71-78 | stores the value when at least 2, otherwise raises and leaves every setting unchanged |
| Params.Parameters.SetMinTaskDegree | Turbine/param/parameters.py:80-85 | stores the value when at least 1, otherwise raises and changes nothing |
| Params.Parameters.SetMaxTaskDegree | Turbine/param/parameters.py:87-94 | stores the value when at least 2, otherwise raises and changes nothing |
| Params.Parameters.SetMinPhaseCount | Turbine/param/parameters.py:97-102 | stores the value when at least 1, otherwise raises and changes nothing |
| Params.Parameters.SetMaxPhaseCount | Turbine/param/parameters.py:104-111 | stores the value when non-negative and not below the minimum phase count, which it then bounds; otherwise changes nothing |
| Params.Parameters.SetAverageTime | Turbine/param/parameters.py:113-118 | stores the value when at least 1, otherwise raises and changes nothing |
| Params.Parameters.SetMinIniPhaseCount | Turbine/param/parameters.py:121-126 | stores the value when non-negative, otherwise raises and changes nothing |
| Params.Parameters.SetMaxIniPhaseCount | Turbine/param/parameters.py:128-135 | stores the value when non-negative and not below the minimum initial phase count, otherwise changes nothing |
| Params.Parameters.SetAverageIniTime | Turbine/param/parameters.py:137-142 | stores the value when non-negative, otherwise raises and changes nothing |
| Params.Parameters.SetAverageIniWeight | Turbine/param/parameters.py:144-149 | stores the value when at least 1, otherwise raises and changes nothing |
| Params.Parameters.SetAverageRepetitionFactor | Turbine/param/parameters.py:152-157 | stores the value when at least 1, otherwise raises and changes nothing |
| Params.Parameters.SetDataflowType | Turbine/param/parameters.py:160-165 | replaces the dataflow type and nothing else |
| Params.Parameters.SetNormalized | Turbine/param/parameters.py:167-172 | replaces the normalized flag and nothing else |
| Params.Parameters.SetReentrant | Turbine/param/parameters.py:174-179 | replaces the reentrant flag and nothing else |
| Params.Parameters.SetMultiGraph | Turbine/param/parameters.py:181-186 | replaces the multi-arc flag and nothing else |
| Params.Parameters.SetAcyclic | Turbine/param/parameters.py:188-193 | replaces the acyclic flag and nothing else |
| Params.Parameters.SetSolver | Turbine/param/parameters.py:196-201 | replaces the solver name and nothing else |
| Params.Parameters.SetLoggingLevel | Turbine/param/parameters.py:204-208 | replaces the logging level and nothing else |
| Params.Parameters.SetSolverVerbose | Turbine/param/parameters.py:210-214 | replaces the solver verbosity and nothing else |
| Params.Parameters.SetLpFilename | Turbine/param/parameters.py:216-220 | replaces the LP file name and nothing else |
| Periodic.AllNoLaterTrans | turbine/algorithms/periodic.py:30-31 | "no later than, task by task" is transitive, so successive relaxations only ever raise start times |
| Periodic.InitialTimes | turbine/algorithms/periodic.py:12-18 | the first task starts at 0 and every other task at minus infinity |
| Periodic.RelaxArcLater | turbine/algorithms/periodic.py:27-31 | relaxing an arc never lowers a start time, and afterwards the target starts no earlier than the source's start plus the arc weight |
| Periodic.PassLater | turbine/algorithms/periodic.py:26-31 | within one pass over the arcs, later prefixes of the pass give start times no earlier than earlier ones |
| Periodic.RelaxArcMonotone | turbine/algorithms/periodic.py:27-31 | relaxation is monotone: later start times in give later start times out |
| Periodic.PassMonotone | turbine/algorithms/periodic.py:26-31 | a whole pass over the arcs is monotone in the start times it begins from |
| Periodic.RoundLater | turbine/algorithms/periodic.py:25-31 | each round leaves every start time no earlier than the round before |
| Periodic.RoundsLater | turbine/algorithms/periodic.py:25-31 | start times never decrease from one round to any later round |
| Periodic.FirstTaskFinite | turbine/algorithms/periodic.py:14 | the first task's computed start time is finite and non-negative |
| Periodic.PassRelaxes | turbine/algorithms/periodic.py:26-31 | after a full pass, every arc's target starts no earlier than its source's start (before the pass) plus the arc weight |
| Periodic.RoundsCoverWalks | turbine/algorithms/periodic.py:20-31 | after k rounds, the end of every walk from the first task with at most k arcs starts no earlier than the walk's weight |
| Periodic.StartingTimesCoverWalks | turbine/algorithms/periodic.py:10-32 | the computed start time of every task reachable by a walk of at most n arcs from the first task is finite and at least the walk's total weight (duration minus marking times period, summed) |
| Periodic.ComputeStartingTimes | turbine/algorithms/periodic.py:10-32 | the loops compute exactly the specified start times (n rounds of relaxation over the arcs from the initial times) |
| Periodic.RelaxAll | turbine/algorithms/periodic.py:26-31 | the inner loop computes exactly one pass of relaxation over all arcs in order |
| Scc.IsHidden | turbine/algorithms/scc.py:187-191 | a task is hidden exactly when some arc into it has a non-zero initial marking |
| Scc.AtMostOneComponent | turbine/algorithms/scc.py:177-184 | when no task is popped twice, no task belongs to two components |
| Scc.FlattenMember | turbine/algorithms/scc.py:184 | every task of a component appears in the concatenation of the components, inside that component's slice |
| Scc.PoppedReversed | turbine/algorithms/scc.py:179-183 | the component popped down to stack position n lists the stack above n from the top down |
| Scc.PushKeeps | turbine/algorithms/scc.py:163-166 | numbering a fresh task with the counter and pushing it keeps indices below the counter, links not above indices and indices increasing up the stack |
| Scc.PopKeeps | turbine/algorithms/scc.py:180-181 | popping the top task moves it from the stack to the popped tasks without duplicating it |
| Scc.LowerKeeps | turbine/algorithms/scc.py:173-176 | lowering a link with `min` keeps it at or below the task's own index |
| Scc.Tarjan.constructor | turbine/algorithms/scc.py:148-151 | the search starts with no index, no link, counter 0 and an empty stack |
| Scc.Tarjan.Push | turbine/algorithms/scc.py:163-166 | the task gets index and link equal to the counter, the counter grows by one and the task goes on top of the stack |
| Scc.Tarjan.Lower | turbine/algorithms/scc.py:173-176 | only the task's link changes, to the smaller of its old value and the given one |
| Scc.Tarjan.PopOne | turbine/algorithms/scc.py:180-181 | removes and returns the top of the stack, which becomes a popped task |
| Scc.Tarjan.PopStep | turbine/algorithms/scc.py:179-183 | one turn of the pop loop removes one task, and the loop stops exactly at the root's stack position |
| Scc.Tarjan.IsRoot | turbine/algorithms/scc.py:182-183 | the popped task equals the root exactly when the stack is down to the root's position, since tasks on the stack are distinct |
| Scc.Tarjan.PopComponent | turbine/algorithms/scc.py:178-184 | the stack is cut back to below the root and the component is the cut part from the top down, root last |
| Scc.Tarjan.StrongConnect | turbine/algorithms/scc.py:160-185 | the task ends numbered, the stack below it is untouched, the components returned are exactly the tasks popped meanwhile, and if the task stays on the stack its link is below its index |
| Scc.Tarjan.VisitSuccessors | turbine/algorithms/scc.py:168-176 | visiting the task's arcs keeps the invariant and the task at its stack position; the components found are the tasks popped |
| Scc.Tarjan.VisitArc | turbine/algorithms/scc.py:169-176 | one arc: an unnumbered target is visited recursively and its link taken, a stacked target's index is taken; hidden targets are skipped in the empty-arc variant |
| Scc.Tarjan.FinishVertex | turbine/algorithms/scc.py:177-185 | when the link equals the index the task's component is popped, otherwise the stack is unchanged |
| Scc.Components | turbine/algorithms/scc.py:139-156 | every task lands in exactly one component (with the skipping variant, exactly the non-hidden tasks do), and no component is empty |
| SymbolicExecution.NextPhaseOk | Turbine/algorithms/symbolic_exe.py:204-209 | advancing a task's phase keeps every phase in range, steps a negative (initial) phase towards 0, and only PCG phases are ever negative |
| SymbolicExecution.ExecutableNotOverdrawn | Turbine/algorithms/symbolic_exe.py:214-218 | on SDF and CSDF, an executable task never drives an input marking negative when it starts |
| SymbolicExecution.ThresholdBelowConsumptionOverdraws | Turbine/algorithms/symbolic_exe.py:246-258 | on PCG an arc holding at least its threshold but less than the consumption lets the task start and leaves a negative marking |
| SymbolicExecution.InitialPhasesOk | Turbine/algorithms/symbolic_exe.py:177-186 | after reset every task is at phase 0, or at minus its initial phase count for PCG, which is a valid phase |
| SymbolicExecution.PhaseSlotsResetMeaning | Turbine/algorithms/symbolic_exe.py:183-184 | resetting a task's slots adds an empty list for each of its phases below p and keeps every other entry |
| SymbolicExecution.StartsResetMeaning | Turbine/algorithms/symbolic_exe.py:178-184 | after reset the start-time table holds an empty list for every slot of the visited tasks and keeps every other entry |
| SymbolicExecution.Reset | Turbine/algorithms/symbolic_exe.py:167-186 | the reset state is well formed: one marking per arc, valid phases, nothing executing |
| SymbolicExecution.InitialPhaseHasNoSlot | Turbine/algorithms/symbolic_exe.py:88-91 | a PCG task in an initial phase has no start-time slot after reset, so recording its start raises |
| SymbolicExecution.MinRt | Turbine/algorithms/symbolic_exe.py:46-50 | the running minimum is at most every task's completed-iteration count and is one of them |
| SymbolicExecution.MaxRt | Turbine/algorithms/symbolic_exe.py:47-51 | the running maximum is at least every task's completed-iteration count and is one of them |
| SymbolicExecution.RtBounds | Turbine/algorithms/symbolic_exe.py:46-51 | the bounds raise exactly when there is no task or a repetition factor is 0; otherwise they bracket every task's iteration count |
| SymbolicExecution.CountTrueZero | Turbine/algorithms/symbolic_exe.py:153 | no task is chosen exactly when the round's count of chosen tasks is 0 |
| SymbolicExecution.FireOne | Turbine/algorithms/symbolic_exe.py:86-97 | firing a task either stops the run or adds the task to the executing list, leaving phases, clock and step unchanged |
| SymbolicExecution.Fired | Turbine/algorithms/symbolic_exe.py:85-97 | the firing loop keeps the state well formed and never starts a task it has not reached yet |
| SymbolicExecution.FiredStep | Turbine/algorithms/symbolic_exe.py:85-97 | one more turn of the firing loop fires task n exactly when it was chosen |
| SymbolicExecution.FiredHaltStays | Turbine/algorithms/symbolic_exe.py:93-95 | once firing returns -1 the rest of the loop changes nothing |
| SymbolicExecution.MinTick | Turbine/algorithms/symbolic_exe.py:100-103 | the increment is the smallest time left among the executing tasks, and it is one of them |
| SymbolicExecution.EndOf | Turbine/algorithms/symbolic_exe.py:199-211 | ending a task keeps markings and phases well formed and changes no other task's phase |
| SymbolicExecution.TickMapKeys | Turbine/algorithms/symbolic_exe.py:106-107 | ticking changes no key of the time-left table |
| SymbolicExecution.TickMapMeaning | Turbine/algorithms/symbolic_exe.py:106-107 | after the loop has passed them, executing tasks have lost exactly the increment and the others are untouched |
| SymbolicExecution.FinishedMeaning | Turbine/algorithms/symbolic_exe.py:108-110 | a task finishes in the round exactly when its time left equals the increment |
| SymbolicExecution.TickStep | Turbine/algorithms/symbolic_exe.py:106-110 | one turn of the ticking loop is one step of the specified table and finishing list |
| SymbolicExecution.Ticked | Turbine/algorithms/symbolic_exe.py:106-110 | ending the finished tasks keeps markings and phases well formed |
| SymbolicExecution.RemoveFirst | Turbine/algorithms/symbolic_exe.py:114 | removing a task from a list without duplicates leaves exactly the other tasks |
| SymbolicExecution.Dropped | Turbine/algorithms/symbolic_exe.py:112-114 | the clean-up drops exactly the finished tasks from the executing list and touches nothing else |
| SymbolicExecution.Ticks | Turbine/algorithms/symbolic_exe.py:106-110 | ticking keeps the executing list, clock and table keys |
| SymbolicExecution.Elapsed | Turbine/algorithms/symbolic_exe.py:99-115 | the clock moves on by the smallest time left |
| SymbolicExecution.ElapsedMeaning | Turbine/algorithms/symbolic_exe.py:99-115 | every executing task loses the increment, those left at 0 leave the executing list, and some task finishes whenever one was executing |
| SymbolicExecution.Advanced | Turbine/algorithms/symbolic_exe.py:117-134 | step two starts once every task has fired its initial and cyclic phases |
| SymbolicExecution.RoundOf | Turbine/algorithms/symbolic_exe.py:45-157 | a round that ends the run successfully is in step two with every task fired `rf × phases × nb_ite` times |
| SymbolicExecution.AfterFiring | Turbine/algorithms/symbolic_exe.py:99-156 | the end of a round declares success only in step two with every task fired enough |
| SymbolicExecution.RunAfter | Turbine/algorithms/symbolic_exe.py:45-157 | rounds keep the state well formed |
| SymbolicExecution.RunAfterStays | Turbine/algorithms/symbolic_exe.py:45 | once the main loop has stopped, further rounds change nothing |
| SymbolicExecution.StartRun | Turbine/algorithms/symbolic_exe.py:29-43 | the run starts well formed |
| SymbolicExecution.ExecuteOf | Turbine/algorithms/symbolic_exe.py:28-32 | a cyclic graph without initial tokens returns -1 before any round |
| SymbolicExecution.FiredNone | Turbine/algorithms/symbolic_exe.py:85-86 | when no task is chosen the firing loop changes nothing |
| SymbolicExecution.IdleRoundStops | Turbine/algorithms/symbolic_exe.py:153-156 | a round with nothing executing and nothing chosen ends the run with -1, unless the ratio computation raises first |
| SymbolicExecution.FiredKeepsLaterInputs | Turbine/algorithms/symbolic_exe.py:85-97 | tasks the firing loop has not reached still see the markings of the start of the round |
| SymbolicExecution.FireOneKeysExact | Turbine/algorithms/symbolic_exe.py:96-97 | firing a task keeps `tick_left` keyed by exactly the executing tasks |
| SymbolicExecution.FiredKeysExact | Turbine/algorithms/symbolic_exe.py:85-97 | the firing loop keeps `tick_left` keyed by exactly the executing tasks |
| SymbolicExecution.DroppedKeysExact | Turbine/algorithms/symbolic_exe.py:112-114 | deleting each finished task from `tick_left` and from the executing list together keeps the keys exact |
| SymbolicExecution.DropOneKeysExact | Turbine/algorithms/symbolic_exe.py:113-114 | deleting one task from `tick_left` and from the executing list without duplicates keeps the keys exact |
| SymbolicExecution.ElapsedKeysExact | Turbine/algorithms/symbolic_exe.py:99-115 | the time step keeps `tick_left` keyed by exactly the executing tasks |
| SymbolicExecution.RoundKeysExact | Turbine/algorithms/symbolic_exe.py:45-157 | a round that does not stop the run keeps `tick_left` keyed by exactly the executing tasks |
| SymbolicExecution.RunAfterKeysExact | Turbine/algorithms/symbolic_exe.py:45-157 | every going state of the main loop reached from a state with exact keys has exact keys |
| SymbolicExecution.NextKeysExact | Turbine/algorithms/symbolic_exe.py:45-157 | one more round keeps the keys of a going run exact |
| SymbolicExecution.RunKeysExact | Turbine/algorithms/symbolic_exe.py:29-157 | from the start of `execute`, every going state of the main loop has `tick_left` keyed by exactly the executing tasks |
| SymbolicExecution.MinTickIsTableMin | Turbine/algorithms/symbolic_exe.py:99-103 | with exact keys, the increment is the source's `min` over the values of `tick_left`: at most each of them, equal to one of them, and 0 when the table is empty |
| SymbolicExecution.FireOneNotOverdrawn | Turbine/algorithms/symbolic_exe.py:93-95 | without thresholds, a task whose inputs have not moved since it was found executable never returns -1 when fired |
| SymbolicExecution.FiredNeverOverdrawn | Turbine/algorithms/symbolic_exe.py:93-95 | without thresholds the "negative bds" branch of the firing loop is never taken |
| SymbolicExecution.RoundNeverOverdrawn | Turbine/algorithms/symbolic_exe.py:45-157 | without thresholds a round returns -1 only from the ratio test or an idle round |
| SymbolicOps.Executor.constructor | Turbine/algorithms/symbolic_exe.py:11-22 | a fresh executor has an empty start-time table, the clock at 0 and nothing executing |
| SymbolicOps.Executor.Raz | Turbine/algorithms/symbolic_exe.py:167-186 | the state becomes the specified reset state: the graph's markings, initial phases, nothing executing, clock 0, emptied start slots |
| SymbolicOps.Executor.IsExecutable | Turbine/algorithms/symbolic_exe.py:214-218 | true exactly when every arc entering the task holds what its current phase needs |
| SymbolicOps.Executor.TaskStartExe | Turbine/algorithms/symbolic_exe.py:189-195 | returns -1 exactly when some input arc would go negative; otherwise every input arc has lost the current phase's consumption |
| SymbolicOps.Executor.TaskEndExe | Turbine/algorithms/symbolic_exe.py:199-211 | output arcs gain the current phase's production and the task's phase advances, wrapping to 0 |
| SymbolicOps.Executor.RtBoundsScan | Turbine/algorithms/symbolic_exe.py:46-51 | the loop computes the specified iteration-count bounds, raising where the source raises |
| SymbolicOps.Executor.SelectTasks | Turbine/algorithms/symbolic_exe.py:60-81 | chooses exactly the idle, executable tasks not yet done in step two, and counts them together with the executing ones |
| SymbolicOps.Executor.SelectOne | Turbine/algorithms/symbolic_exe.py:63-81 | a task is chosen exactly when the selection predicate holds, adding one to the count |
| SymbolicOps.Executor.FireTask | Turbine/algorithms/symbolic_exe.py:86-97 | firing one task has exactly the specified effect on the state |
| SymbolicOps.Executor.FireSelected | Turbine/algorithms/symbolic_exe.py:85-97 | the firing loop has exactly the specified effect over all tasks, stopping on the first negative marking |
| SymbolicOps.Executor.FireNext | Turbine/algorithms/symbolic_exe.py:85-97 | one turn of the firing loop is one step of the specified loop |
| SymbolicOps.Executor.MinTickScan | Turbine/algorithms/symbolic_exe.py:100-103 | the increment is the smallest time left among the executing tasks, 0 when none |
| SymbolicOps.Executor.TickExecuting | Turbine/algorithms/symbolic_exe.py:105-110 | every executing task loses the increment, those reaching 0 end, and exactly those are returned in list order |
| SymbolicOps.Executor.DropFinished | Turbine/algorithms/symbolic_exe.py:112-114 | the finished tasks leave the time-left table and the executing list |
| SymbolicOps.Executor.AdvanceTime | Turbine/algorithms/symbolic_exe.py:99-115 | ticking, clean-up and the clock give exactly the specified elapsed state |
| SymbolicOps.Executor.AllReachedScan | Turbine/algorithms/symbolic_exe.py:118-129 | true exactly when every task has fired at least its initial and cyclic phase count |
| SymbolicOps.Executor.AllFiredEnoughScan | Turbine/algorithms/symbolic_exe.py:137-149 | true exactly when every task has fired `rf × phases × nb_ite` times |
| SymbolicOps.Executor.FinishRound | Turbine/algorithms/symbolic_exe.py:99-156 | the end of a round has exactly the specified effect |
| SymbolicOps.Executor.Round | Turbine/algorithms/symbolic_exe.py:45-157 | one iteration of the main loop has exactly the specified effect |
| SymbolicOps.Executor.RoundAt | Turbine/algorithms/symbolic_exe.py:45-157 | the round after k rounds leaves the state the specification gives after k + 1 |
| SymbolicOps.Executor.MainLoop | Turbine/algorithms/symbolic_exe.py:45-162 | the main loop returns what the specified run returns within the fuel bound |
| SymbolicOps.Executor.Execute | Turbine/algorithms/symbolic_exe.py:28-162 | `execute` returns the specified result: -1 for an obvious deadlock, otherwise the result of the run |
| SymbolicOps.Executor.GetStartTime | Turbine/algorithms/symbolic_exe.py:24-25 | `execute` with start times recorded |
| SymbolicOps.IsDeadLock | Turbine/graph_classe/dataflow.py:640-648 | the graph is dead-locked exactly when one iteration of execution does not return 0 |
| UntimedExecution.ExecutableNotOverdrawn | turbine/algorithms/symbolic_exe.py:126-131 | without thresholds, an executable task never drives an input marking negative |
| UntimedExecution.NextPhase | turbine/algorithms/symbolic_exe.py:120-122 | the next phase stays between minus the initial phase count and the last cyclic phase, and is the current phase plus one or 0 after the last cyclic phase |
| UntimedExecution.StartRun | turbine/algorithms/symbolic_exe.py:94-105 | the run starts with the graph's markings, no firing counted, in step one, and every task at phase 0 or at minus its initial phase count when the graph is initialized |
| UntimedExecution.Selection | turbine/algorithms/symbolic_exe.py:31-44 | a task is chosen exactly when it is executable and, in step two, not yet fired enough |
| UntimedExecution.SelectionStep | turbine/algorithms/symbolic_exe.py:31-44 | the count of chosen tasks grows by one exactly for each chosen task |
| UntimedExecution.FireOne | turbine/algorithms/symbolic_exe.py:48-52 | firing a task stops the run with -1 exactly when some input arc would go negative |
| UntimedExecution.Fired | turbine/algorithms/symbolic_exe.py:47-52 | the firing loop either stops with -1 or keeps the run well formed in the same step |
| UntimedExecution.FiredStep | turbine/algorithms/symbolic_exe.py:47-52 | one more turn of the firing loop fires task n exactly when it was chosen |
| UntimedExecution.FiredHaltStays | turbine/algorithms/symbolic_exe.py:50-52 | once the firing loop returns -1 later tasks change nothing |
| UntimedExecution.FiredCounts | turbine/algorithms/symbolic_exe.py:47-52 | after the firing loop, exactly the chosen tasks have one more firing and their next phase, and the others are unchanged |
| UntimedExecution.AfterStepOne | turbine/algorithms/symbolic_exe.py:54-66 | step two starts, with every counter reset to 0, exactly when step one is on and every task has fired its initial and cyclic phases; otherwise nothing changes |
| UntimedExecution.AfterFiring | turbine/algorithms/symbolic_exe.py:54-84 | the run succeeds with 0 exactly when something was chosen and, in step two, every task has fired its repetition factor times its phase count; it goes on only when something was chosen |
| UntimedExecution.Round | turbine/algorithms/symbolic_exe.py:23-86 | a round stops with -1 or 0, or keeps the run well formed |
| UntimedExecution.RunAfter | turbine/algorithms/symbolic_exe.py:23-86 | after any number of rounds the run has stopped with -1 or 0 or is well formed |
| UntimedExecution.RunAfterStays | turbine/algorithms/symbolic_exe.py:23 | once the main loop has stopped, further rounds change nothing |
| UntimedExecution.ExecuteOf | turbine/algorithms/symbolic_exe.py:11-89 | `execute` returns -1 or 0 |
| UntimedExecution.FiredNone | turbine/algorithms/symbolic_exe.py:47-48 | when nothing is chosen the firing loop changes nothing |
| UntimedExecution.IdleRoundStops | turbine/algorithms/symbolic_exe.py:80-84 | a round in which no task can be chosen ends the run with -1 |
| UntimedExecution.TokenCreateNonNegative | turbine/algorithms/symbolic_exe.py:134-143 | with non-negative rates a firing never removes tokens from an arc it produces on |
| UntimedExecution.FiredKeepsLaterInputs | turbine/algorithms/symbolic_exe.py:47-52 | tasks the firing loop has not reached keep their phase and see no fewer tokens than at the start of the round |
| UntimedExecution.FiredStepNotOverdrawn | turbine/algorithms/symbolic_exe.py:50-52 | without thresholds, a chosen task is still executable when its turn comes |
| UntimedExecution.FiredNeverOverdrawn | turbine/algorithms/symbolic_exe.py:50-52 | without thresholds the "negative buffer" branch is never taken |
| UntimedExecution.RoundFailsIffIdle | turbine/algorithms/symbolic_exe.py:23-86 | without thresholds a round returns -1 exactly when no task can be chosen |
| UntimedExecution.OverdrawnStops | turbine/algorithms/symbolic_exe.py:50-52 | with thresholds, a first chosen task whose consumption exceeds a marking ends the round with -1 |
| UntimedExecution.FiredPrefix | turbine/algorithms/symbolic_exe.py:47-52 | the firing loop up to task n depends only on the choices for tasks below n |
| UntimedExecution.FireOneKeepsMarkings | turbine/algorithms/symbolic_exe.py:109-124 | with non-negative rates a firing that goes on keeps every marking non-negative |
| UntimedExecution.FiredKeepsMarkings | turbine/algorithms/symbolic_exe.py:47-52 | the firing loop keeps every marking non-negative |
| UntimedExecution.RoundKeepsMarkings | turbine/algorithms/symbolic_exe.py:23-86 | every round that goes on leaves markings non-negative |
| UntimedExecution.FiredKeepsCounts | turbine/algorithms/symbolic_exe.py:36-52 | firing keeps the counters non-negative and, in step two, at most the repetition factor times the phase count |
| UntimedExecution.AfterStepOneKeepsCounts | turbine/algorithms/symbolic_exe.py:54-66 | entering step two keeps the counters within their bounds |
| UntimedExecution.RoundKeepsCounts | turbine/algorithms/symbolic_exe.py:23-86 | every round keeps the counters within their bounds |
| UntimedExecution.RunKeepsCounts | turbine/algorithms/symbolic_exe.py:23-86 | from the start, no task ever fires more than its repetition factor times its phase count in step two |
| UntimedExecution.RunFailsOnlyWhenIdle | turbine/algorithms/symbolic_exe.py:23-86 | without thresholds a run that returns -1 went through a round in which no task could be chosen |
| UntimedOps.UntimedExe.constructor | turbine/algorithms/symbolic_exe.py:7-8 | the executor holds the graph it was built with |
| UntimedOps.UntimedExe.Raz | turbine/algorithms/symbolic_exe.py:94-105 | markings and phases become those of the specified start |
| UntimedOps.UntimedExe.IsExecutable | turbine/algorithms/symbolic_exe.py:127-131 | true exactly when every entering arc holds what the task's current phase needs |
| UntimedOps.UntimedExe.TaskExe | turbine/algorithms/symbolic_exe.py:109-124 | returns -1 exactly when some input would go negative; otherwise inputs lose the consumption, outputs gain the production and the phase advances |
| UntimedOps.UntimedExe.ConsumeInputs | turbine/algorithms/symbolic_exe.py:110-114 | fails exactly when some input would go negative, otherwise gives the consumed markings |
| UntimedOps.UntimedExe.ProduceOutputs | turbine/algorithms/symbolic_exe.py:116-118 | every output arc gains the current phase's production |
| UntimedOps.UntimedExe.SelectTasks | turbine/algorithms/symbolic_exe.py:28-44 | chooses exactly the specified tasks and counts them |
| UntimedOps.UntimedExe.SelectOne | turbine/algorithms/symbolic_exe.py:32-44 | one task is chosen exactly when the selection predicate holds |
| UntimedOps.UntimedExe.FireTask | turbine/algorithms/symbolic_exe.py:48-52 | firing one task has exactly the specified effect |
| UntimedOps.UntimedExe.FireSelected | turbine/algorithms/symbolic_exe.py:46-52 | the firing loop has exactly the specified effect over all tasks |
| UntimedOps.UntimedExe.FireNext | turbine/algorithms/symbolic_exe.py:47-52 | one turn of the firing loop is one step of the specified loop |
| UntimedOps.UntimedExe.AllReachedScan | turbine/algorithms/symbolic_exe.py:56-61 | true exactly when every task has fired its initial and cyclic phases |
| UntimedOps.UntimedExe.AllEnoughScan | turbine/algorithms/symbolic_exe.py:70-76 | true exactly when every task has fired its repetition factor times its phase count |
| UntimedOps.UntimedExe.FinishRound | turbine/algorithms/symbolic_exe.py:54-84 | the end of a round has exactly the specified effect |
| UntimedOps.UntimedExe.RunRound | turbine/algorithms/symbolic_exe.py:25-86 | one iteration of the main loop has exactly the specified effect |
| UntimedOps.UntimedExe.RoundAt | turbine/algorithms/symbolic_exe.py:23-86 | the round after k rounds leaves the state the specification gives after k + 1 |
| UntimedOps.UntimedExe.Execute | turbine/algorithms/symbolic_exe.py:11-89 | `execute` returns what the specified run returns within the fuel bound |
| Legacy.Fresh | turbine/models/graph.py:51-70 | a new graph is valid, with no task, no arc and every flag false |
| Legacy.NamesUnique | turbine/models/graph.py:151-154 | in a valid graph two different tasks never share a name |
| Legacy.AddTaskTo | turbine/models/graph.py:140-167 | a name already in use adds nothing and returns None; otherwise the next key is returned, the task gets one phase of duration 1 and no initial phase, and the name maps to it |
| Legacy.AddTaskValid | turbine/models/graph.py:140-167 | adding a task keeps the graph valid |
| Legacy.AddTaskFindsName | turbine/models/graph.py:158-162 | after adding, the name finds the new task and every earlier name still finds its task |
| Legacy.WithRf | turbine/models/graph.py:180-189 | only the task's repetition factor changes |
| Legacy.WithDurations | turbine/models/graph.py:255-264 | a list whose length differs from the phase count raises and changes nothing; otherwise it replaces the durations |
| Legacy.WithIniDurations | turbine/models/graph.py:266-275 | a list whose length differs from the initial phase count raises and changes nothing; otherwise it replaces the initial durations |
| Legacy.PyIndex | turbine/models/graph.py:253 | a Python index is valid exactly when -n ≤ p < n, and then names position p or p + n |
| Legacy.WithPhaseDuration | turbine/models/graph.py:244-253 | an index out of range raises IndexError and changes nothing; otherwise the indexed duration (negative indices from the end) is replaced |
| Legacy.WithPhaseCount | turbine/models/graph.py:191-217 | an unchanged phase count does nothing; otherwise the task gets that many phases of duration 1, the graph becomes phased when the count exceeds 1, and the arcs are reset |
| Legacy.PhaseCountResetsArcs | turbine/models/graph.py:210-217 | arcs entering the task get consumptions of 1 and thresholds of 0, arcs leaving it get productions of 1, all other lists and cached gcds stay |
| Legacy.WithPhaseCountValid | turbine/models/graph.py:191-217 | changing a phase count keeps the graph valid |
| Legacy.WithPhaseCountInit | turbine/models/graph.py:219-241 | the task gets that many initial phases of duration 1 (even when unchanged), the graph becomes initialized when the count is positive, and the arcs are reset |
| Legacy.PhaseCountInitResetsArcs | turbine/models/graph.py:235-241 | arcs entering the task get initial consumptions and thresholds of 1, arcs leaving it initial productions of 1; cyclic lists stay |
| Legacy.WithPhaseCountInitValid | turbine/models/graph.py:219-241 | changing an initial phase count keeps the graph valid |
| Legacy.ResetPhaseLists | turbine/models/graph.py:212-217 | the loops reset exactly the specified arcs |
| Legacy.IniResetPhaseLists | turbine/models/graph.py:236-241 | the loops reset exactly the specified arcs |
| Legacy.AddArcTo | turbine/models/graph.py:310-347 | the new arc is appended with marking 0, token size 1 and unit rates; the graph becomes a multigraph exactly when the two tasks were already joined, and reentrant exactly when source equals target |
| Legacy.ParallelSnoc | turbine/models/graph.py:324-332 | appending an arc creates a parallel pair exactly when its ends were already joined, and a self-loop exactly when its ends coincide |
| Legacy.AddArcValid | turbine/models/graph.py:310-347 | adding an arc keeps the graph valid |
| Legacy.RemoveArcFrom | turbine/models/graph.py:349-356 | only the removed arc disappears; the other arcs keep their order and every flag stays as it was |
| Legacy.RemoveArcFlags | turbine/models/graph.py:349-356 | removing an arc never creates a parallel pair or a self-loop, so the kept flags stay sound |
| Legacy.RemoveArcValid | turbine/models/graph.py:349-356 | removing an arc keeps the graph valid |
| Legacy.WithMarking | turbine/models/graph.py:468-477 | only the arc's initial marking changes |
| Legacy.WithTokenSize | turbine/models/graph.py:505-514 | only the arc's token size changes |
| Legacy.Raised | turbine/models/graph.py:599-602 | each threshold becomes the larger of itself and the rate at the same phase; positions past the rates stay |
| Legacy.AdjustThreshold | turbine/models/graph.py:599-602 | the loop raises exactly as specified |
| Legacy.GcdListOf | turbine/models/gcd.py:16-31 | `gcdList` divides every element of the list |
| Legacy.GcdListGreatest | turbine/models/gcd.py:16-31 | every common divisor of the list divides `gcdList` |
| Legacy.CalcGcd | turbine/models/graph.py:382-395 | the cached gcd is set to a common divisor of consumptions and productions, except that two empty lists raise IndexError and change nothing |
| Legacy.CalcGcdGreatest | turbine/models/graph.py:382-395 | the cached gcd is the greatest common divisor of the two lists |
| Legacy.WithCons | turbine/models/graph.py:516-527 | a wrong length raises and changes nothing; otherwise the consumptions are stored and the gcd recomputed, and only that arc changes |
| Legacy.WithProd | turbine/models/graph.py:573-584 | a wrong length raises and changes nothing; otherwise the productions are stored and the gcd recomputed, and only that arc changes |
| Legacy.WithConsStores | turbine/models/graph.py:525-527 | a list of the right length is stored whatever happens next, and the cached gcd divides both lists unless both are empty |
| Legacy.WithProdStores | turbine/models/graph.py:582-584 | a list of the right length is stored whatever happens next, and the cached gcd divides both lists unless both are empty |
| Legacy.WithThr | turbine/models/graph.py:542-555 | the graph becomes thresholded even when the length check raises; otherwise thresholds are raised to at least the consumptions and their gcd is cached |
| Legacy.WithThrRaises | turbine/models/graph.py:551-555 | stored thresholds are at least both the consumption and the requested value at every phase, and the cached gcd divides them |
| Legacy.CalcGcdInit | turbine/models/graph.py:412-428 | a missing initial list changes nothing; two empty lists cache 1; otherwise the cached gcd divides both initial lists |
| Legacy.WithIniCons | turbine/models/graph.py:529-540 | a wrong length raises and changes nothing; otherwise the initial consumptions are stored and the initial gcd recomputed |
| Legacy.WithIniProd | turbine/models/graph.py:586-597 | a wrong length raises and changes nothing; otherwise the initial productions are stored and the initial gcd recomputed |
| Legacy.WithIniConsGcd | turbine/models/graph.py:538-540 | after storing initial consumptions the cached initial gcd divides both initial lists |
| Legacy.WithIniThr | turbine/models/graph.py:557-571 | the graph becomes thresholded even when it raises; a missing initial consumption list raises KeyError; otherwise initial thresholds are raised to at least the initial consumptions |
| Legacy.TypeOf | turbine/models/graph.py:643-650 | the graph is PCG exactly when thresholded or initialized, and SDF exactly when none of the three flags is set |
| Legacy.SdfTasksSinglePhase | turbine/models/graph.py:643-650 | in a valid SDF graph every task has at most one cyclic phase and no initial phase |
| Legacy.GcdPair | turbine/models/graph.py:1153-1159 | `gcdList([step, x])` divides both numbers |
| Legacy.GcdPairGreatest | turbine/models/graph.py:1153-1159 | every common divisor of the two numbers divides `gcdList([step, x])` |
| Legacy.GcdOf | turbine/models/graph.py:1132-1160 | `getGcd` raises KeyError exactly when the base gcd, or on a thresholded graph the threshold gcd, was never cached |
| Legacy.GcdOfDivides | turbine/models/graph.py:1132-1160 | the arc's step divides every cached part the graph's flags select |
| Legacy.GcdOfGreatest | turbine/models/graph.py:1132-1160 | every common divisor of those parts divides the step |
| Legacy.View | turbine/models/graph.py:643-650 | the legacy graph read as a dataflow graph has the same tasks and arcs, and the kind `getGraphType` gives |
| Legacy.ArcConsistentView | turbine/models/graph.py:1343-1347 | an arc passes the legacy balance test exactly when it is consistent in the dataflow view |
| Legacy.ConsistentFromMeaning | turbine/models/graph.py:1340-1348 | the loop answers true exactly when every remaining arc is balanced |
| Legacy.IsConsistentAnswers | turbine/models/graph.py:1340-1348 | `isConsistent` agrees with the consistency of the dataflow view |
| Legacy.MissingFactorRaises | turbine/models/graph.py:1344 | a source without a repetition factor makes `isConsistent` raise KeyError |
| Legacy.ConsistencyCheck | turbine/models/graph.py:1340-1348 | the loop computes the specified answer |
| Legacy.TaskNormalized | turbine/models/graph.py:1320-1332 | a task without any arc raises IndexError; otherwise it passes exactly when all its production and consumption sums are equal |
| Legacy.NormalizedCheck | turbine/models/graph.py:1318-1333 | the loop computes the specified normalization answer |
| Legacy.LegacyGraph.constructor | turbine/models/graph.py:51-70 | a new object holds the empty graph |
| Legacy.LegacyGraph.AddTask | turbine/models/graph.py:140-167 | has exactly the specified effect and result, and keeps the graph valid |
| Legacy.LegacyGraph.SetRepetitionFactor | turbine/models/graph.py:180-189 | has exactly the specified effect and keeps the graph valid |
| Legacy.LegacyGraph.SetPhaseCount | turbine/models/graph.py:191-217 | has exactly the specified effect and keeps the graph valid |
| Legacy.LegacyGraph.SetPhaseCountInit | turbine/models/graph.py:219-241 | has exactly the specified effect and keeps the graph valid |
| Legacy.LegacyGraph.SetPhaseDuration | turbine/models/graph.py:244-253 | has exactly the specified effect and error, and keeps the graph valid |
| Legacy.LegacyGraph.SetPhaseDurationList | turbine/models/graph.py:255-264 | has exactly the specified effect and error, and keeps the graph valid |
| Legacy.LegacyGraph.SetPhaseDurationInitList | turbine/models/graph.py:266-275 | has exactly the specified effect and error, and keeps the graph valid |
| Legacy.LegacyGraph.AddArc | turbine/models/graph.py:310-347 | appends exactly the specified arc, returns its index, and keeps the graph valid |
| Legacy.LegacyGraph.RemoveArc | turbine/models/graph.py:349-356 | removes exactly that arc and keeps the graph valid |
| Legacy.LegacyGraph.SetInitialMarking | turbine/models/graph.py:468-477 | has exactly the specified effect and keeps the graph valid |
| Legacy.LegacyGraph.SetTokenSize | turbine/models/graph.py:505-514 | has exactly the specified effect and keeps the graph valid |
| Legacy.LegacyGraph.SetConsList | turbine/models/graph.py:516-527 | has exactly the specified effect and error, and keeps the graph valid |
| Legacy.LegacyGraph.SetProdList | turbine/models/graph.py:573-584 | has exactly the specified effect and error, and keeps the graph valid |
| Legacy.LegacyGraph.SetConsThresholdList | turbine/models/graph.py:542-555 | has exactly the specified effect and error, and keeps the graph valid |
| Legacy.LegacyGraph.SetConsInitList | turbine/models/graph.py:529-540 | has exactly the specified effect and error, and keeps the graph valid |
| Legacy.LegacyGraph.SetProdInitList | turbine/models/graph.py:586-597 | has exactly the specified effect and error, and keeps the graph valid |
| Legacy.LegacyGraph.SetConsInitThresholdList | turbine/models/graph.py:557-571 | has exactly the specified effect and error, and keeps the graph valid |
| Legacy.LegacyGraph.GraphType | turbine/models/graph.py:643-650 | returns the specified kind |
| Legacy.LegacyGraph.GetGcd | turbine/models/graph.py:1132-1160 | returns the specified step, or raises KeyError |
| Legacy.LegacyGraph.IsConsistentCheck | turbine/models/graph.py:1340-1348 | returns the specified consistency answer |
| Legacy.LegacyGraph.IsNormalizedCheck | turbine/models/graph.py:1318-1333 | returns the normalization answer of the dataflow view |
| Text.DigitRoundTrip | Turbine/graph_classe/csdf.py:215 | reading back the character `str` writes for a digit gives that digit |
| Text.NatStrValue | Turbine/graph_classe/csdf.py:215 | the decimal digits `str` writes for a natural number have exactly its value |
| Text.ParseIntStr | Turbine/file_parser/sdf3_parser.py:78-80 | `int(str(i))` is `i` for every integer, negative ones included |
| Text.IntStrNoSeparators | Turbine/graph_classe/pcg.py:272-273 | the text of an integer never contains ',', ':' or ';', so the separators stay unambiguous |
| RateText.Split | Turbine/file_parser/sdf3_parser.py:61 | `str.split` on one separator always answers at least one part |
| RateText.SplitJoin | Turbine/file_parser/sdf3_parser.py:61-72 | splitting the comma join of separator-free parts gives exactly the parts back |
| RateText.SplitTwo | Turbine/file_parser/sdf3_parser.py:61-72 | an initial and a cyclic part joined by ';' split back into those two parts |
| RateText.ParseEntries | Turbine/file_parser/sdf3_parser.py:73-92 | a list that parses gives one rate and one threshold per item |
| RateText.ParseRateEntry | Turbine/file_parser/sdf3_parser.py:86-92 | an item written `"r:t"`, or `"r"` when the two are equal, reads back as rate r and threshold t |
| RateText.ParseRateEntries | Turbine/file_parser/sdf3_parser.py:73-92 | the rendered items of equal-length rate and threshold lists read back as exactly those lists |
| RateText.ParseEntriesPrefixError | Turbine/file_parser/sdf3_parser.py:73-92 | once an item fails to parse the whole list fails, with the error of the first failing item |
| RateText.ConsTextRoundTrip | Turbine/graph_classe/pcg.py:248-284 | parsing the consumption text gives back the initial rates and thresholds and the cyclic ones on a PCG, and the rates as their own thresholds on SDF and CSDF |
| RateText.ConsStrRoundTrip | Turbine/file_parser/sdf3_parser.py:60-93 | `split_init_cyclo_rates` inverts `get_cons_str` on every arc of a well-formed graph |
| RateText.ProdTextRoundTrip | Turbine/graph_classe/pcg.py:222-246 | parsing the production text gives back the initial and cyclic productions on a PCG, and the productions alone otherwise |
| RateText.ProdStrRoundTrip | Turbine/file_parser/sdf3_parser.py:60-93 | `split_init_cyclo_rates` inverts `get_prod_str` on every arc of a well-formed graph |
| RateText.StrToDoubleIntDropsThreshold | Turbine/file_parser/sdf3_parser.py:34-41 | `str_to_doubleint` reads an item `"r:t"` as `(r, r)`: the threshold is lost |
| RateText.NoSemicolonNoInitial | Turbine/file_parser/sdf3_parser.py:44-72 | text without ';' has empty initial lists for both parsers |
| RateText.TwoSemicolonsRefused | Turbine/file_parser/sdf3_parser.py:44-64 | text with two ';' is refused with "Bad rate format" by both parsers |
| RateText.DecimalExtendsInt | Turbine/file_parser/sdf3_parser.py:28-31 | `str_to_int` reads decimal text as `float` does, and on integer text it gives exactly the integer `int` gives |
| RateText.ParseFloatStr | Turbine/file_parser/sdf3_parser.py:28-31 | a duration printed as `float` (`"-3.0"`, `"12.0"`) reads back, after the reader's `int()` truncation, as that duration |
| RateText.ParseNumsFloats | Turbine/file_parser/sdf3_parser.py:53-54 | a list of printed floats reads back item by item, and truncating each item gives the durations back |
| RateText.DurationsRoundTrip | Turbine/file_parser/sdf3_parser.py:44-57 | parsing a comma list of rendered integers, with no ';' part, gives an empty initial list and exactly those integers |
| RateText.IntDurationRoundTrip | Turbine/graph_classe/csdf.py:232-240 | `split_init_cyclo_durations` inverts the SDF and CSDF `get_duration_str`: no initial list, and exactly the durations |
| RateText.PcgDurationRoundTrip | Turbine/graph_classe/pcg.py:286-301 | `split_init_cyclo_durations` followed by the reader's `[int(i) for i in ...]` inverts the PCG `get_duration_str`: the initial durations before ';' and the cyclic ones after it |
| RateText.AppendItems | Turbine/graph_classe/csdf.py:214-216 | the loop writes every item followed by a comma after the prefix |
| RateText.AppendedJoin | Turbine/graph_classe/csdf.py:216 | dropping the last comma of one or more terminated items gives their comma join |
| RateText.JoinItems | Turbine/graph_classe/csdf.py:214-216 | the loop and the final slice give the prefix followed by the items joined by commas |
| RateText.RenderCons | Turbine/graph_classe/pcg.py:248-284 | the loops build exactly the consumption text of the arc's class |
| RateText.GetConsStr | Turbine/graph_classe/csdf.py:218-230 | returns the consumption text of the graph's class for the arc |
| RateText.RenderProd | Turbine/graph_classe/pcg.py:222-246 | the loops build exactly the production text of the arc's class |
| RateText.GetProdStr | Turbine/graph_classe/csdf.py:204-216 | returns the production text of the graph's class for the arc |
| RateText.ParseItems | Turbine/file_parser/sdf3_parser.py:73-92 | the item loop answers exactly what the list parse specifies, its first error included |
| RateText.SplitInitCycloRates | Turbine/file_parser/sdf3_parser.py:60-93 | answers exactly the specified parse: more than one ';' is refused, and the initial lists are empty without ';' |
| LegacyText.ConsItems | turbine/models/graph.py:1019-1032 | there is one item per rate; it raises KeyError exactly when there are rates, the graph is thresholded and the threshold list is missing |
| LegacyText.ConsItemsParse | turbine/models/graph.py:1028-1032 | the items read back as the rates with the thresholds the graph shows |
| LegacyText.ConsStrRoundTrip | turbine/models/graph.py:999-1033 | parsing the legacy `getConsStr` text gives the initial lists only when the graph is initialized and the target has initial phases, then the cyclic rates and the shown thresholds |
| LegacyText.GetConsStr | turbine/models/graph.py:1019-1033 | the loops build exactly the specified text, or raise the specified KeyError |
| Rounding.RevisedIsNextMultiple | Turbine/algorithms/solve_SC1.py:196-208 | when `FM0 * gcd == M0` holds with a non-negative factor, the revised marking is a multiple of the gcd in `[M0, M0 + gcd)`, and exactly M0 when the factor is integral |

## Left out

- The LP and MIP solvers are not modelled: the GLPK and Gurobi calls, the column names and bounds, and the problem objects. Their primal values are inputs. The Kc and MIP variants (`solve_SC1_Kc.py`, `solve_SC1_Gurobi_MIP*.py`, `solve_SC2_Gurobi_MIP.py`) are represented only by the dispatch, which leaves the markings cleared.
- The old GLPK wrapper `Turbine/period/period_computation.py` duplicates the SDF row rule of the modelled `Turbine/algorithms/period_computation.py`, so it is not part of this model.
- Floating point is replaced by exact rationals:
  - the solvers' `fm0 % 1` tests become integrality tests;
  - the float comparisons of the simulators become integer comparisons;
  - the float `kmin` column bound of `period_computation.py` (its `__add_col_k`) is left out;
  - the PCG `get_duration_str` prints floats, which are modelled as integers followed by `.0`;
  - `str_to_int` answers `float(rate)`, which is modelled as the exact value of the decimal text; the reader then truncates it with `int()`.
- Other things with no counterpart here:
  - file and XML I/O, logging and `print`;
  - the `print_*` helpers;
  - `check_repetition_vector`, which only prints;
  - the wall-clock time measurement of the simulator.
- Random generation is left out. `get_rdm_un_normalized_vector` receives its random draws as a parameter.
- networkx's arc iteration order is modelled as arc creation order. networkx's acyclicity test is replaced by a predicate of the model.
- Some Python crashes become preconditions rather than modelled errors: a gcd of zero, a task with no arc in the normalization walk, the untimed simulator's `KeyError` and `ZeroDivisionError` paths (the `Ready` requirement), and the `IndexError` that `HSDF_starting_time_computation` raises on a graph with no task when it reads the first task (`Periodic.Rounds`, `Periodic.StartingTimes` and `Periodic.ComputeStartingTimes` require a task). Errors the source raises on purpose are modelled as `Result` values.
- The symbolic and untimed executions run on a `fuel` bound on the number of simulation steps. An execution that would not stop within the bound is not described.
- `__compute_reentrant_initial_marking` of `marking_computation.py` is never called, so it is not part of this model.
- Three helpers of `turbine/algorithms/scc.py` are never called, so they are not modelled:
  - `strongly_connected_components_with_empty` raises an undefined `Error` when it does not find the component of `star`;
  - `tarjan_recursive` is a recursive Tarjan search whose only undefined name is `SuperBug`, raised on an arc whose source is not the task visited;
  - `tarjan_empty_recursive` raises the same `SuperBug` and ends with an undefined `Error`.
- Scc.Components: proves that the components partition the visible tasks, but not that each component is strongly connected.
- MarkingComputation.ComputeInitialMarking: the final state is stated exactly only for graphs that are already normalized. For other graphs it states the solver choice, the cleared markings when no solver applies, and that the graph stays valid with the same arcs.
- Normalization.NormalizeRoundTrip: the round trip through `normalized_dataflow` and `un_normalized_dataflow` restores the graph only when every coefficient keeps the marking and the PCG lists integral (`ExactOn`). Otherwise the marking is rounded up, which `RoundTripChangesMarking` exhibits.
- `normalized_dataflow` calls `is_consistent`, which raises as written (see "## Findings"). The model uses the intended test there.
- SolveSc2.GetMax: the source's `+=` also lengthens the threshold list stored on the arc. The model computes the same maximum without that mutation.
- SC1's row estimate in `marking_computation.py` does not count the solver's step rows. The model keeps that omission, because the estimate only selects a solver.
- The legacy `getProdStr` and `getDurationStr` are not modelled, nor the legacy port names and arc names. They have the same shape as the modelled `Turbine` getters.
- The legacy duplicates replaced by `Turbine/` counterparts (`turbine/algorithms/rv.py`, `normalized.py`, `solve_SC1.py`, `solve_SC2.py`, `turbine/generation/markingComputation.py`, `turbine/param/parameters.py`) are not part of this model. Neither is `turbine/algorithms/cycle.py`, which calls an undefined function.
- `int()` is modelled on an optional sign followed by decimal digits. Python's acceptance of surrounding whitespace is not modelled.
- RateText.StrToNum: `float()` is modelled on an optional sign and decimal digits with at most one '.'. Surrounding whitespace, exponents (`"1e3"`), underscores, `inf` and `nan` are not accepted by the model. The value is kept exact, so a text whose binary rounding crosses an integer (`"2.9999999999999999"`) truncates to 2 in the model and to 3 in Python.
- RateText.DurationStr: Python prints a float of magnitude 10^16 or more in exponent notation (`1e+16`), and `float()` rounds integers above 2^53. The model prints every PCG duration as its digits followed by `.0` and keeps it exact, so `PcgDurationRoundTrip` describes Python only for durations below 2^53 in magnitude.

## Findings

| source | as written | input that shows it | evidently intended | confidence | as-written member | corrected member |
|---|---|---|---|---|---|---|
| Turbine/algorithms/rv.py:52 | the recursive call's `False` is ignored, so a walk that met an unbalanced arc further on still answers success | a three-task graph whose walk reaches `t2`, where arc `t2 -> t1` contradicts the fraction of `t1`: the factors `[1, 1, 1]` are stored | a failure anywhere in the walk makes `compute_rep_vect` report an inconsistent graph | not executed | RepetitionVector.RepVectAsWrittenAcceptsInconsistent | RepetitionVector.ComputeRepVectConsistent |
| Turbine/graph_classe/sdf.py:189-197 | `sum` is applied to an SDF scalar rate, which raises `TypeError` | any SDF graph with at least one arc | compare `prod * rf(src)` with `cons * rf(tgt)` on every arc | not executed | Graph.IsConsistentAsWrittenRaises | Graph.IsConsistent |
| Turbine/algorithms/normalized.py:59-62 | on PCG the thresholds are read back after the CSDF consumption setter has replaced them by the scaled consumption, and are scaled again | coefficient 3, consumption `[1]`, threshold `[2]`: the threshold becomes `[9]` | each threshold scaled once, giving `[6]` | not executed | Normalization.ThresholdsSquared | Normalization.ThresholdsScaledOnce |
| Turbine/algorithms/solve_SC2.py:147 | `int((fm0 + 1) * step)` scales before truncating, so the marking is not a multiple of the step | `fm0 = 1/2`, `step = 2`: marking 3 | `int(fm0 + 1) * step`, as in SC1, giving the next multiple of the step | not executed | SolveSc2.RevisedAsWrittenNotMultiple | Rounding.RevisedIsNextMultiple |
| Turbine/graph_classe/csdf.py:171-182 | the production-list setter PCG inherits recomputes only the CSDF gcd, ignoring thresholds and initial lists | a PCG arc with threshold 3 and productions reset to `[2]`: the gcd 2 does not divide 3 | PCG recomputes its own gcd after the production setter, as it does after the others | not executed | Graph.PcgProdSetterLosesThresholds | Graph.ProdSetterCorrectedKeepsGcd |
| Turbine/algorithms/normalized.py:116-140 | `__test_coef_vector` returns after the first arc, and returns `None` on a graph with no arc | the vector `[1, 1/2]` on two parallel arcs: it passes, although `1/2` makes the second arc's rates fractional | every arc is checked before accepting | not executed | Normalization.TestCoefVectorFirstArcOnly | Normalization.TestCoefVector |
| Turbine/generation/marking_computation.py:74-75 | the SC2 estimate counts `(in - re) * out - re` pair rows per task | a task with a self-loop, two other inputs and one other output: 3 rows estimated, 2 built | `(in - re) * (out - re)`, the rows `solve_SC2.py` builds | not executed | MarkingComputation.Cs2TaskAsWrittenOvercounts | MarkingComputation.Cs2RowCount |
| Turbine/generation/marking_computation.py:87-92 | a PCG arc is counted by both the CSDF and the PCG branch, since `is_csdf` also holds for PCG | any non-reentrant PCG arc | the PCG product only, as `solve_SC1.py` builds | not executed | MarkingComputation.Sc1AsWrittenPcgArc | MarkingComputation.Sc1RowCount |
| Turbine/algorithms/solve_SC2.py:229-230 | initial thresholds are appended after the cyclic ones while initial rates are prepended, so rates and thresholds are misaligned | a PCG pair with one initial phase: maximum 5 where the aligned lists give 6 | thresholds aligned with their rates | not executed | SolveSc2.PairMaxAsWrittenMisses | SolveSc2.GetMax |
