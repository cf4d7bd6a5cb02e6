# Decomposition-set search and task generation, modelled in Dafny

Two programs cooperate to split a hard SAT instance into many easier ones.

`find_decomp_set.py` starts from 32 variables of a CNF: the *decomposition set*.
For every prefix of that set, longest first, it estimates the runtime of solving
the CNF by splitting on the prefix. To estimate, it reads a staged CNF for that
step (`..._<i>bitM.cnf`), then drops the unit clauses that fix set variables.
For each bit string of a sample, it writes a working CNF with those variables
fixed by new unit clauses and hands it to a SAT solver. It averages the
runtimes, counting only samples before the first undecided one, and divides
by the whole sample size. The estimate is that average times `2^|set|`. The
search keeps shrinking the set while the estimate strictly improves and
returns the best estimate with its set.

`gen_decomp_set_icnfs/solve_decomp_set.cpp` takes a CNF and a decomposition set
of `14 + m` variables. It writes `2^14` incremental CNFs; task `i` is named
`task_<i>_<cleaned name>.icnf`. Each holds `p inccnf`, the CNF's clause lines,
14 unit clauses fixing the first 14 variables as the 14-bit pattern of `i`
does, and `2^m` cubes `a <literals> 0`, one per assignment of the last `m`
variables.

Modules, following the two programs:

- `Wrappers`: the `Option` and `Result` types.
- `Failures`: `Failure` lists every way the Python script can stop. `SolveFailure` does the same for the C++ program.
- `Text`: Python's `split()`, `split(c)`, `find`/`rfind`, `str(int)` and `int(str)`.
- `Bits`: `std::bitset<32>(i).to_string()`, and big-endian binary numerals.
- `Literals`: the literal and unit-clause text both programs build.
- `CnfWriter`: `write_clauses_cnf`.
- `SolverLog`: `parse_solver_log`.
- `StagedCnf`: the staged-CNF name and the CNF filter of `process_decomp_set`.
- `Evaluation`: the unit clauses, the working CNF and the averaging of `process_decomp_set`.
- `DecompSetLoader`: the script's decomposition-set loader.
- `DecompSetSearch`: the greedy search.
- `SolveInputs`: `read_cnf` and `read_decomp_set`.
- `SolveDecompSet`: `solve` (cubes, unit clauses, names, file contents) and `main`.

Each loop of the source that computes a value is a `method` with loop
invariants. Its `ensures` ties the result to a specification function, and
the lemmas beside that function state what the source promises. The loops
that only write a file or print are listed under "## Left out".

Behaviour worth knowing, as the code has it:

- The average divides the summed runtimes by the full sample size, including the samples after the first INDET that were never solved.
- A range line's bounds need not be positive. A range `a-b` with `b < a`, and a line where one side of `-` is empty, both give the empty set, which then fails the size check. Any line containing `-`, such as `-5`, is read as a range, not as a list.
- The unit clause and cube literal for position `j` take their sign from character `j` of the bitset string, which is bit `n-1-j` of the index.
- The staged CNF reader compares only the number of unit clauses over set variables with the size of the set. A file that fixes variable 1 twice and variable 2 never is accepted for the set `1 2`.
- The staged-file step number is checked against `0..32`, although the search only uses steps 0 to 31.
- `main` of the C++ program reads the set with a guard on the text `"0"` only, so a word such as `00` or `-5` becomes a variable 0 or `2^32 - 5` (see "## Findings").

## Model

| member | source | states |
|---|---|---|
| CnfWriter.WriteClausesCnf | find_decomp_set.py:20-27 | the written lines are the header `p cnf <var_num> <count>` with count = number of main plus unit clauses, then every main clause in order, then every unit clause in order, and nothing else |
| CnfWriter.HeaderWords | find_decomp_set.py:23 | splitting the header on blanks gives `p`, `cnf`, the variable count and the clause count, so a reader's third field is the variable count |
| SolverLog.ParseSolverLog | find_decomp_set.py:29-39 | the verdict is INDET exactly when no line of at least 12 characters holds a verdict marker; otherwise it is the verdict of the last such line, where SAT wins when a line holds both markers |
| SolverLog.SatisfiableLine | find_decomp_set.py:35-36 | the line `s SATISFIABLE` yields SAT |
| SolverLog.UnsatisfiableLine | find_decomp_set.py:37-38 | the line `s UNSATISFIABLE` yields UNSAT: it does not contain `s SATISFIABLE` |
| StagedCnf.StagedCnfName | find_decomp_set.py:44-51 | the staged name exists exactly when the text before the first `bitM.cnf` has an `_` after its first character; otherwise the assertion fails |
| StagedCnf.StagedNameOfShape | find_decomp_set.py:44-51 | a name `<prefix>_<digits>bitM.cnf` is restaged to `<prefix>_<step>bitM.cnf` |
| StagedCnf.RestagingIsStaging | find_decomp_set.py:44-51 | restaging a staged name for step `j` gives the same name as staging the base name for step `j` |
| StagedCnf.ReadStagedCnf | find_decomp_set.py:57-76 | the loop over the staged CNF's lines computes the reference reading `ReadCnf` |
| StagedCnf.ReadLine | find_decomp_set.py:61-74 | one line of that loop: comment skipped, `p` line sets the variable count, a unit clause of a set variable is counted, any other clause is kept; the failure of a line that cannot be read |
| StagedCnf.ScanStaysFailed | find_decomp_set.py:60-74 | once a line fails, the lines after it change nothing: the failure ends the run |
| StagedCnf.ScanMatchesReference | find_decomp_set.py:60-74 | the scan succeeds exactly when every line is well formed; it then holds the last declared variable count, the kept clauses in order and the number of set-variable unit clauses; otherwise the failure of the first bad line |
| StagedCnf.ReadCnfMeaning | find_decomp_set.py:57-76 | reading succeeds exactly when there are more than two lines, all well formed, as many set-variable unit clauses as the set has variables, and a positive last declared variable count; the result holds that count and the kept clauses |
| StagedCnf.MainClausesAreKeptLines | find_decomp_set.py:61-74 | a line is a kept clause exactly when it is a line of the file classified as a main clause: not a comment, not a `p` line, ending in `0`, and not a unit clause of a set variable |
| StagedCnf.ReferenceAppend | find_decomp_set.py:60-74 | the kept clauses, the unit count and the last variable count of two concatenated blocks of lines combine from those of each block |
| StagedCnf.WellFormedAppend | find_decomp_set.py:60-74 | two concatenated blocks are well formed exactly when each block is |
| Evaluation.UnitClauses | find_decomp_set.py:96-102 | exactly one unit clause per set variable; clause `i` is `v 0` for variable `v = dset[i]` when bit `i` is `1`, else `-v 0` |
| Evaluation.UnitClauseListFixes | find_decomp_set.py:96-102 | unit clause `i`, read back, is two words: the literal of `dset[i]` with the sample's sign, and `0` |
| Evaluation.UnitClausesExample | find_decomp_set.py:96-102 | set `[1, 2, 3]` with bits `101` gives `1 0`, `-2 0`, `3 0` |
| Evaluation.UnitClausesOtherExample | find_decomp_set.py:96-102 | set `[1, 2, 3]` with bits `011` gives `-1 0`, `2 0`, `3 0` |
| Evaluation.WorkingCnfReference | find_decomp_set.py:96-104 | the working CNF is well formed, holds the read clauses as its main clauses, one set-variable unit clause per set variable, and declares the read variable count |
| Evaluation.WorkingCnfReadsBack | find_decomp_set.py:20-27 | reading the written working CNF back, with the same set, gives back exactly what was read from the staged CNF |
| Evaluation.SampleAverage | find_decomp_set.py:93-116 | the loop's result is the runtime sum over the sample's outcomes before the first INDET, divided by the sample size |
| Evaluation.DecisivePrefixIs | find_decomp_set.py:110-113 | the runs that count are exactly those before the first INDET outcome |
| Evaluation.AverageUpToFirstIndet | find_decomp_set.py:93-116 | if the first INDET is at position `k`, or there is none and `k` is the sample size, the average is the sum of the first `k` runtimes over the sample size |
| Evaluation.DilutedAverageExample | find_decomp_set.py:116 | runtimes 1, 2, 3, 4 followed by an INDET, over a sample of 10, average to 1.0 |
| Evaluation.ProcessDecompSet | find_decomp_set.py:41-117 | staging the name, opening and reading the staged CNF, and averaging over the sample compute `Evaluate`, failures included |
| DecompSetLoader.LoadDecompSet | find_decomp_set.py:145-163 | the loader computes `DecompSetOf`: a range or a list parsed from the only line, or the failure |
| DecompSetLoader.RangeIsAscendingRun | find_decomp_set.py:155-157 | an accepted range `a-b` is `a, a+1, ..., b`, empty when `b < a`, and has `a > 0` when not empty |
| DecompSetLoader.WordValuesMeaning | find_decomp_set.py:159-162 | a list is accepted exactly when every word is an integer above zero; then it holds those integers in order |
| DecompSetLoader.LoadedSetShape | find_decomp_set.py:145-163 | a loaded set comes from a one-line file and holds exactly 32 positive variables |
| DecompSetLoader.RangeLine | find_decomp_set.py:149-157 | a line `<a>-<b>` with `a > 0` is read as the range from `a` to `b` |
| DecompSetLoader.RangeExample | find_decomp_set.py:149-157 | `5-8` is read as `[5, 6, 7, 8]` |
| DecompSetLoader.ListLine | find_decomp_set.py:158-162 | the blank-separated numerals of positive values are read back as those values |
| DecompSetLoader.ListExample | find_decomp_set.py:158-162 | `5 6 7 8` is read as `[5, 6, 7, 8]` |
| DecompSetLoader.LeadingDashExample | find_decomp_set.py:149-152 | `-5` is taken as a range with an empty lower bound, gives no variable, and so fails the size check |
| DecompSetSearch.Shrunk | find_decomp_set.py:188 | the set at step `i` is a prefix of the initial set, `i` variables shorter |
| DecompSetSearch.Scaled | find_decomp_set.py:179 | scaling a positive average by `2^size` gives a value at least that average |
| DecompSetSearch.Estimate | find_decomp_set.py:175-179 | an estimate that exists is positive; a non-positive average is the failure of the assertion |
| DecompSetSearch.ImprovesExactlyBelowDouble | find_decomp_set.py:179-182 | with positive averages at steps `i` and `i + 1`, step `i + 1` improves on step `i` exactly when its average is below twice the average of step `i`, since `2^size` halves |
| DecompSetSearch.StepEstimate | find_decomp_set.py:175-179 | one step of the search computes `Estimate` for its set |
| DecompSetSearch.FindDecompSet | find_decomp_set.py:170-188 | the result is the estimate and set of the step after which the search stops; a failure is the failure of a step reached by the search |
| DecompSetSearch.ImprovingRunMinimum | find_decomp_set.py:182-184 | along a strictly improving run, the last estimate is at most every earlier one |
| DecompSetSearch.BestIsMinimum | find_decomp_set.py:182-187 | the returned estimate is the minimum of all estimates computed, including the worse one that stopped the search |
| DecompSetSearch.ExtendImproving | find_decomp_set.py:182-184 | a step whose estimate is strictly below the previous best extends the improving run |
| DecompSetSearch.StopIsUnique | find_decomp_set.py:182-187 | the search stops after at most one step: two stopping steps of the same estimates are equal (that one exists is `FindDecompSet`'s ensures) |
| DecompSetSearch.StopExcludesFailure | find_decomp_set.py:176-187 | a search that stops successfully reached no failing step |
| Literals.Literal | find_decomp_set.py:98-99 | a literal is a blank-free word, starting with `-` exactly when negative, that reads back as the signed variable |
| Literals.UnitClause | find_decomp_set.py:98-99 | a unit clause splits into its literal and `0` |
| Literals.LiteralInjective | find_decomp_set.py:98-99 | distinct sign and variable pairs give distinct literals |
| Bits.LowBitStringIsBinary | gen_decomp_set_icnfs/solve_decomp_set.cpp:76-77 | the last `n` characters of `bitset<32>(i).to_string()` form the `n`-digit big-endian binary numeral of `i` |
| Bits.LowBitStringAt | gen_decomp_set_icnfs/solve_decomp_set.cpp:76-77 | character `q` of those `n` characters is bit `n-1-q` of `i` |
| Bits.BinaryBERoundTrip | gen_decomp_set_icnfs/solve_decomp_set.cpp:76-77 | the numeral of `i < 2^n` reads back as `i` |
| Bits.BitsValueRoundTrip | gen_decomp_set_icnfs/solve_decomp_set.cpp:76-77 | every bit string is the numeral of its own value, which is below `2^length` |
| Bits.BinaryBEInjective | gen_decomp_set_icnfs/solve_decomp_set.cpp:76-77 | distinct indices below `2^n` have distinct numerals |
| Bits.BinaryBESurjective | gen_decomp_set_icnfs/solve_decomp_set.cpp:93-94 | every `n`-character bit string is the numeral of some index below `2^n` |
| SolveDecompSet.BuildCubes | gen_decomp_set_icnfs/solve_decomp_set.cpp:70-86 | the cube loop computes `AllCubes`: `2^m` cubes, where cube `i` is built from the bitset string of `i` |
| SolveDecompSet.AllCubes | gen_decomp_set_icnfs/solve_decomp_set.cpp:74-86 | there are exactly `2^m` cubes |
| SolveDecompSet.BuildCube | gen_decomp_set_icnfs/solve_decomp_set.cpp:79-85 | one cube is `a `, then each signed literal followed by a blank, then `0` |
| SolveDecompSet.CubeFromBitset | gen_decomp_set_icnfs/solve_decomp_set.cpp:75-85 | every cube index fits the bitset, and the cube built from its bitset string is cube `i` |
| SolveDecompSet.CubeSigns | gen_decomp_set_icnfs/solve_decomp_set.cpp:81-82 | literal `j` of cube `i` is variable `dset[14+j]`, positive exactly when bit `m-1-j` of `i` is set |
| SolveDecompSet.CubeLineWords | gen_decomp_set_icnfs/solve_decomp_set.cpp:80-84 | a cube splits into `a`, its literals and `0` |
| SolveDecompSet.CubesDiffer | gen_decomp_set_icnfs/solve_decomp_set.cpp:75-86 | distinct cube indices give distinct cubes |
| SolveDecompSet.CubesCoverAll | gen_decomp_set_icnfs/solve_decomp_set.cpp:75-86 | every sign assignment of the cube variables is the assignment of some cube |
| SolveDecompSet.BuildUnits | gen_decomp_set_icnfs/solve_decomp_set.cpp:96-102 | the unit loop gives one unit clause per character of the pattern, signed by it |
| SolveDecompSet.TaskUnits | gen_decomp_set_icnfs/solve_decomp_set.cpp:93-102 | every task has exactly 14 unit clauses |
| SolveDecompSet.FixingUnitSigns | gen_decomp_set_icnfs/solve_decomp_set.cpp:97-101 | unit clause `j` of task `i` fixes `dset[j]`, positive exactly when bit `13-j` of `i` is set |
| SolveDecompSet.FixingUnitsDiffer | gen_decomp_set_icnfs/solve_decomp_set.cpp:91-102 | distinct task indices give distinct unit clause lists |
| SolveDecompSet.FixingUnitsCoverAll | gen_decomp_set_icnfs/solve_decomp_set.cpp:91-102 | every sign assignment of the 14 task variables is the assignment of some task |
| SolveDecompSet.CleanedCnfName | gen_decomp_set_icnfs/solve_decomp_set.cpp:106-110 | when the name holds `./` and then `.cnf`, the cleaned name is six characters shorter; otherwise the erase fails |
| SolveDecompSet.CleanedTypicalName | gen_decomp_set_icnfs/solve_decomp_set.cpp:106-110 | `./<base>.cnf` is cleaned to `<base>` when `<base>` holds no `.cnf` |
| SolveDecompSet.TaskFileNamesDiffer | gen_decomp_set_icnfs/solve_decomp_set.cpp:111 | distinct task indices give distinct file names |
| SolveDecompSet.Tasks | gen_decomp_set_icnfs/solve_decomp_set.cpp:64-119 | a successful run writes exactly `2^14` task files |
| SolveDecompSet.Solve | gen_decomp_set_icnfs/solve_decomp_set.cpp:64-119 | the method computes `Tasks`: reading the CNF, building the cubes, then one file per task index, or the failure that stops it |
| SolveDecompSet.TaskFromBitset | gen_decomp_set_icnfs/solve_decomp_set.cpp:93-116 | the file the loop builds from the bitset string of `i` is task `i` |
| SolveDecompSet.TaskLayout | gen_decomp_set_icnfs/solve_decomp_set.cpp:111-116 | task file `i` is named `task_<i>_<cleaned>.icnf` and holds `p inccnf`, the CNF's clauses, task `i`'s 14 unit clauses and all cubes, in that order |
| SolveDecompSet.TasksShareClausesAndCubes | gen_decomp_set_icnfs/solve_decomp_set.cpp:113-116 | any two task files have the same length, the same header and clauses, and the same cubes |
| SolveDecompSet.TasksDiffer | gen_decomp_set_icnfs/solve_decomp_set.cpp:91-116 | two distinct task files differ in their name and in their unit clauses |
| SolveDecompSet.TasksCoverAll | gen_decomp_set_icnfs/solve_decomp_set.cpp:70-102 | every assignment of all set variables is fixed by some task's unit clauses together with one of the cubes |
| SolveDecompSet.Run | gen_decomp_set_icnfs/solve_decomp_set.cpp:48-70 | `main` with `read_decomp_set` as written: a failure reading the set is the run's failure; then a failure reading the CNF is; then a set outside 14 to 45 variables is `UnsupportedSize`; a successful run read a set of 14 to 45 variables and wrote exactly that set's task files |
| SolveDecompSet.RunFixesReadVariables | gen_decomp_set_icnfs/solve_decomp_set.cpp:54-59 | in every task file a run writes, the line after the header and the `c` clauses plus `j` is the unit clause fixing variable `j` of the set as read (which may be 0), positive exactly when bit `13-j` of the task index is set |
| SolveDecompSet.RunChecked | gen_decomp_set_icnfs/solve_decomp_set.cpp:48-70 | `main` with the corrected reader: a failure reading the set is the run's failure; then a failure reading the CNF is; then a set outside 14 to 45 variables is `UnsupportedSize`; a successful run read a set of 14 to 45 variables and wrote exactly that set's task files |
| SolveDecompSet.RunFixesPositiveVariables | gen_decomp_set_icnfs/solve_decomp_set.cpp:54-59 | with the corrected reader, line `1 + c + j` of every task file fixes variable `j` of the set file, which is positive, signed by bit `13-j` of the task index |
| SolveDecompSet.RunsAgreeOnAcceptedSets | gen_decomp_set_icnfs/solve_decomp_set.cpp:54-59 | on every set file the corrected reader accepts, the program as written and the corrected run give the same result |
| SolveDecompSet.TaskUnitLine | gen_decomp_set_icnfs/solve_decomp_set.cpp:97-101 | line `1 + c + j` of task file `i` is the unit clause fixing `dset[j]`, positive exactly when bit `13-j` of `i` is set |
| SolveInputs.ReadCnf | gen_decomp_set_icnfs/solve_decomp_set.cpp:122-136 | the reading loop computes `CnfClauses`: the non-empty lines not starting with `p` or `c`, a failure when the file does not open or no such line exists |
| SolveInputs.ClauseLinesMembers | gen_decomp_set_icnfs/solve_decomp_set.cpp:130-133 | a line is kept exactly when it is a line of the file that is not empty and starts with neither `p` nor `c` |
| SolveInputs.ClauseLinesAppend | gen_decomp_set_icnfs/solve_decomp_set.cpp:130-133 | the kept lines of two concatenated blocks are the kept lines of each block, in order |
| SolveInputs.ClauseLinesKeepAll | gen_decomp_set_icnfs/solve_decomp_set.cpp:130-133 | a file made only of clause lines is kept whole |
| SolveInputs.ClauseLinesIdempotent | gen_decomp_set_icnfs/solve_decomp_set.cpp:130-133 | filtering the kept lines again changes nothing |
| SolveInputs.Stoi | gen_decomp_set_icnfs/solve_decomp_set.cpp:153 | a converted word holds an `int` value |
| SolveInputs.AsUnsigned | gen_decomp_set_icnfs/solve_decomp_set.cpp:153 | storing an `int` in an `unsigned` gives the value modulo `2^32`, unchanged when not negative |
| SolveInputs.StoiOfNatToString | gen_decomp_set_icnfs/solve_decomp_set.cpp:153 | the numeral of a value in `int` range converts back to that value |
| SolveInputs.ReadDecompSet | gen_decomp_set_icnfs/solve_decomp_set.cpp:139-157 | the reading loop computes `DecompSetAsWritten`: the values of the first line's words, or the failure |
| SolveInputs.ReadWords | gen_decomp_set_icnfs/solve_decomp_set.cpp:150-154 | the word loop computes `TokenValues` with the as-written conversion: the values in order, or the failure of the first word refused |
| SolveInputs.ReadToken | gen_decomp_set_icnfs/solve_decomp_set.cpp:152-153 | one word: the text `0` is refused, any other word is converted by `stoi` and stored as `unsigned` |
| SolveInputs.AcceptedTokenAgrees | gen_decomp_set_icnfs/solve_decomp_set.cpp:152-153 | a word the corrected conversion accepts gets the same value from the conversion as written |
| SolveInputs.TokenValuesMeaning | gen_decomp_set_icnfs/solve_decomp_set.cpp:151-154 | the words are accepted exactly when each converts; then the set holds their values in order |
| SolveInputs.DecompSetFileIsPositive | gen_decomp_set_icnfs/solve_decomp_set.cpp:151-156 | with each value checked, a set read holds at least one variable and every variable is positive and fits an `int` |
| SolveInputs.CorrectedReaderAgrees | gen_decomp_set_icnfs/solve_decomp_set.cpp:146-156 | whenever the corrected reader accepts a file, the reader as written reads the same set from it |
| SolveInputs.ZeroVariableSlipsThrough | gen_decomp_set_icnfs/solve_decomp_set.cpp:152 | the word `00` passes the check and puts variable 0 in the set; with each value checked it is refused |
| SolveInputs.NumeralOfPositive | gen_decomp_set_icnfs/solve_decomp_set.cpp:152-153 | the numeral of a positive value in `int` range is read as that value, by both readers |
| SolveInputs.DecompSetRoundTrip | gen_decomp_set_icnfs/solve_decomp_set.cpp:146-156 | a file whose first line lists positive variables, blank-separated, is read back as exactly those variables, by both readers |

## Left out

- Randomness: the script draws its sample with a seeded PRNG. The sample of bit strings for each step is an input here.
- The SAT solver: the script runs it with `timeout` through `os.popen` and times it with `time.time`. Here it is a function parameter from a working CNF's lines to a verdict and a runtime. The runtime is a real number, not a float.
- Printing, and the command-line handling of both programs. The print loops (the sample's first three strings, the set, the results) are not modelled. This covers the check that the CNF name contains `0bitM`, the sample-size argument with its check `>= 3`, and `-h`/`-v`.
- Files are maps from names to their lines. Writing the working CNF to `tmp.cnf`, and the `2^14` task files, yield their lines instead of a disk write. The write loops of `write_clauses_cnf` are modelled by `CnfWriter.WriteClausesCnf`. The three write loops of `solve` (clauses, unit clauses, cubes to the `ofstream`, solve_decomp_set.cpp:113-116) are the concatenation `["p inccnf"] + clauses + units + cubes`. That does not capture the order of the stream writes, or a write that fails partway.
- `Text.PyInt`: Python's `int()` also accepts underscores and non-ASCII digits. Python's `split()` and `int()` also treat the ASCII separators `\x1c` to `\x1f` and non-ASCII white space as blanks. None of this is modelled: a line `5\x1c6` is one word here, not two.
- `Evaluation.ProcessDecompSet`: the assertion `0 <= iter_num <= 32` and the CLI's `sample_size >= 3` are preconditions, since the search only passes steps 0 to 31.
- `DecompSetSearch.FindDecompSet`: there is a fresh sample per step, as the script draws it, and every sample must have as many bits as the set it is used on.
- `SolveDecompSet.Solve`: it requires between 14 and 45 variables (`Splittable`). With fewer, the unsigned subtraction wraps and `pow` overflows the cube count. With 32 or more cube variables, the count does not fit an `unsigned`, or `bitset<32>` cannot hold it. `SolveDecompSet.Run` and `SolveDecompSet.RunChecked` report these sets as `UnsupportedSize`, after the CNF has been read, as `solve` reads it (solve_decomp_set.cpp:67) before the subtraction at line 70.
- C++ `pow` is exact `2^m` here. For `m < 32` it is exact as a double too.
- The C++ `assert`s are modelled as always enabled. Builds with `NDEBUG` drop them.
- The C++ program recomputes the cleaned CNF name inside the task loop. The model computes it once, which gives the same name for every task.
- `DecompSetLoader.LoadDecompSet` and `StagedCnf.ReadStagedCnf` take the file's lines as given. `open` failing on a missing set file (`FileNotFoundError`, find_decomp_set.py:145) is not modelled; a missing staged CNF is `NoSuchFile` in `Evaluation.ProcessDecompSet`. Neither is Python's `splitlines()`, which also breaks lines at `\x0b`, `\x0c`, `\x1c` to `\x1e`, `\x85` and `\u2028`; such a character can change the one-line check of find_decomp_set.py:147.
- `SolveInputs.ReadCnf` and `SolveInputs.ReadDecompSet`: `getline`'s treatment of a final line without a newline, and of `\r`, is not modelled. The lines are given.

## Findings

| source | as written | input that shows it | evidently intended | confidence | as-written member | corrected member |
|---|---|---|---|---|---|---|
| gen_decomp_set_icnfs/solve_decomp_set.cpp:152 | the check compares the word's text with `"0"`, so other spellings of zero (`00`, `-0`, `+0`) and negative numbers are converted and stored as `unsigned` variables | a decomposition-set file whose first line is `00` gives the set `[0]` | every variable of the decomposition set is positive, as `SolveDecompSet.RunChecked` reads it | not executed | SolveInputs.ZeroVariableSlipsThrough | SolveInputs.DecompSetFileIsPositive |
