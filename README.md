# MiniSat OCaml binding: literal codec, clause marshaling and session gating

This project models the C++ stubs that expose a MiniSat solver to OCaml
(`libminisat_stubs.c`). It has three parts.

- **Literal codec** (`codec.dfy`, built on `solver_types.dfy`). Variables and
  literals travel to OCaml as plain integers. A literal over variable `v`
  with sign `s` is `v + v + s`. Its variable is `lit >> 1` and its sign is the
  low bit. "Positive" means `sign = true`, the odd integer `2v + 1`, exactly
  as `minisat_pos_lit` passes it to `mkLit`. The codec is modelled over
  unbounded integers. In C++ before C++20, `>>` on a negative `int` is
  implementation-defined. The model assumes the arithmetic shift that
  compilers implement, which is floor division by 2. It models `& 1` as the
  non-negative remainder.
- **Clause marshaling** (`marshal.dfy`). `clause_val` pushes each OCaml array
  element, as a literal, onto a caller-owned `vec<Lit>`. That vector is the
  class `LitVec`. `Val_clause` copies a literal sequence into a fresh integer
  array.
- **Session gating** (`sessions.dfy`). The class `Session` stands for the
  `Solver` object. Its fields abstract the engine state the stubs touch:
  `nVars()`, `okay()`, the `model` and `conflict` vectors, the clauses and
  assumptions handed to the engine, and a `disposed` flag for
  `minisat_del`. The results of `addClause`, `simplify`, the solve calls and
  `value` are arbitrary values of the right type and range. A solve may
  change `okay()`, the model and the conflict. It also overwrites the
  engine's assumption vector, and it changes nothing else.

MiniSat's `SolverTypes.h` belongs to MiniSat itself, which this binding does
not include. `solver_types.dfy` rebuilds the parts of it that the stubs use: `Lit`, `mkLit`, `var`, `sign`,
`toLit`, `toInt` and `lbool`. The `Lit` layout comes from the comment at
`libminisat_stubs.c:112-116`, and the lbool codes come from the comment at
line 175. Those definitions, `Marshal.ToLitsSnoc`, the `LitVec` constructor
and `Session.EngineStep` have no rows below. They are the building blocks of
the Codec, Marshal and Session rows. `EngineStep` stands for the effect of a
solve inside the engine: it may change `okay()`, the model and the conflict,
and nothing else.

The code and the documented session protocol disagree in two places. The
model follows the code.

- `minisat_conflict` returns the conflict whenever `okay()` is false. It
  does not check the last solve's verdict or whether assumptions were used.
  MiniSat's published `solve_` clears `conflict` on entry. It sets `ok` to
  false only on an UNSAT that needed no assumption, and that leaves the
  conflict empty. `Solver.cc` belongs to MiniSat itself, which this binding
  does not include. This remark is read from MiniSat's published text and
  was not executed. If it reads as it is published, the stub returns either an empty
  array or a stale conflict, and never the conflict of an UNSAT caused by
  the assumptions.
- `minisat_model` tests only `okay()`, not whether the last solve was
  satisfiable. Under "## Findings", its gate is corrected so that it never
  reads past the model.

## Model

| member | source | states |
|---|---|---|
| `SolverTypes.LBoolToInt` | libminisat_stubs.c:39 | The code handed to OCaml for an lbool is in {0, 1, 2}. It is 0 exactly for l_True and 1 exactly for l_False. |
| `SolverTypes.LBoolOfInt` | libminisat_stubs.c:174-175 | Reading a code back succeeds exactly on {0, 1, 2}, and it gives the lbool whose code it is. |
| `SolverTypes.LBoolCodeRoundTrip` | libminisat_stubs.c:174-175 | Decoding the code of any lbool gives that lbool back. |
| `SolverTypes.LBoolCodeInjective` | libminisat_stubs.c:174-175 | Two lbools have the same code if and only if they are equal, so Undefined is never confused with False. |
| `Codec.LitToVar` | libminisat_stubs.c:117-120 | The variable of a literal integer `lit` is the `v` with `lit == 2v` or `lit == 2v + 1`. |
| `Codec.LitSign` | libminisat_stubs.c:122-125 | The sign is the low bit: `lit == 2 * LitToVar(lit) + sign`. |
| `Codec.MakeLit` | libminisat_stubs.c:137-140 | Round trip: the literal decodes to the given variable and the given sign. |
| `Codec.PosLit` | libminisat_stubs.c:127-130 | The positive literal decodes to `v` with sign true. |
| `Codec.NegLit` | libminisat_stubs.c:132-135 | The negative literal decodes to `v` with sign false. |
| `Codec.PosNegComplement` | libminisat_stubs.c:112-135 | `pos_lit(v)` equals `mklit(v, true)` and `neg_lit(v)` equals `mklit(v, false)`. Both decode to `v` with opposite signs. The negative one is even, and the positive one is the next integer, with the same bits above bit 0. |
| `Codec.MakeLitInjective` | libminisat_stubs.c:112-115 | Two encodings are equal if and only if their variables and signs are equal. |
| `Codec.DecodeEncode` | libminisat_stubs.c:112-125 | Every literal integer re-encodes to itself from its decoded variable and sign. A literal is non-negative if and only if its variable is. |
| `Codec.MakeLitFitsInt32` | libminisat_stubs.c:113-116 | For a variable `v >= 0`, MiniSat's `int` computation `v + v + sign` stays within 32 signed bits exactly when `v < 2^30`. |
| `Marshal.LitVec.Push` | libminisat_stubs.c:71 | `vec::push` appends one literal at the end. |
| `Marshal.ToLits` | libminisat_stubs.c:70-72 | The literals an integer array stands for: same length, element `i` is `toLit(arr[i])`. |
| `Marshal.ToInts` | libminisat_stubs.c:80-82 | The integers a literal sequence is encoded as: same length, element `i` is `toInt(clause[i])`. |
| `Marshal.MarshalInverse` | libminisat_stubs.c:68-84 | Converting integers to literals and back gives the original sequence, and so does the other order. |
| `Marshal.ClauseVal` | libminisat_stubs.c:68-75 | Exactly `Wosize_val(arr)` literals are appended. Element `old size + i` is `toLit(arr[i])`. The earlier contents are unchanged. |
| `Marshal.ValClause` | libminisat_stubs.c:77-84 | The result is a fresh array of length `clause.size()` with `arr[i] == toInt(clause[i])`. |
| `Marshal.MarshalRoundTrip` | libminisat_stubs.c:68-84 | `Val_clause` applied to the vector `clause_val` builds from a fresh vector gives back the original integer array. |
| `Sessions.LBoolCodes` | libminisat_stubs.c:184-186 | One code per assignment, in order, each in {0, 1, 2}. |
| `Sessions.ModelAsWritten` | libminisat_stubs.c:176-190 | The code as written returns the empty array unless `okay()`. When `okay()` holds, it reads past the model exactly when the model is shorter than `nVars()`. Otherwise it returns `nVars()` codes in order. |
| `Sessions.ModelGated` | libminisat_stubs.c:174-190 | The corrected result has exactly `nVars()` codes in {0, 1, 2}, entry `i` being `model[i]`'s code, when `okay()` holds and the model covers every variable. Otherwise it is empty. |
| `Sessions.AsWrittenReadsPastModelAfterNewVar` | libminisat_stubs.c:176-190 | When `okay()` holds, after one more `minisat_new_var` the code as written reads past any model that covered the earlier variables. |
| `Sessions.GatedAgreesWithAsWritten` | libminisat_stubs.c:176-190 | Wherever the code as written stays in bounds, the corrected gate returns the same codes. |
| `Sessions.FreshSessionModelAsWritten` | libminisat_stubs.c:176-190 | A fresh session with one variable makes the code as written read `model[0]` of an empty model. |
| `Sessions.Session.constructor` | libminisat_stubs.c:86-94 | A new session has no variables, no clauses, no assumptions, an empty model and conflict, `okay()` true, and is not disposed. |
| `Sessions.Session.Delete` | libminisat_stubs.c:97-102 | Marks the session disposed and changes nothing else. Every other operation requires a session that is not disposed. |
| `Sessions.Session.NewVar` | libminisat_stubs.c:104-110 | Returns the current `nVars()`, increments it, and leaves everything else unchanged. |
| `Sessions.Session.AddClause` | libminisat_stubs.c:143-151 | The engine receives exactly `toLit` of the array's integers, in order, as one new clause. The variable count, model, conflict and assumptions are unchanged. |
| `Sessions.Session.Simplify` | libminisat_stubs.c:153-157 | Only `okay()` may change. The variables, clauses, model, conflict and assumptions are unchanged. |
| `Sessions.Session.Conflict` | libminisat_stubs.c:159-172 | The result is a fresh array. It is empty whenever `okay()` holds. Otherwise it holds the conflict literals' integers in order. |
| `Sessions.Session.Model` | libminisat_stubs.c:174-190 | The result is a fresh array equal to `ModelGated` of the session's `okay()`, `nVars()` and model. Wherever the code as written stays in bounds, the result is exactly what that code returns. |
| `Sessions.Session.SolveLimited` | libminisat_stubs.c:192-201 | Solves with an empty assumption vector. The result is a valid lbool code in {0, 1, 2}. The variables and clauses are unchanged. |
| `Sessions.Session.Solve` | libminisat_stubs.c:203-209 | Solves without assumptions. The variables and clauses are unchanged. |
| `Sessions.Session.SolveWithAssumption` | libminisat_stubs.c:211-219 | The engine's assumptions are exactly `toLit` of the array's integers, in order. The variables and clauses are unchanged. |
| `Sessions.Session.ValueOf` | libminisat_stubs.c:221-228 | For an allocated variable, the result is a valid lbool code in {0, 1, 2}. |
| `Sessions.AllocateVariables` | libminisat_stubs.c:104-110 | `n` successive `minisat_new_var` calls on a fresh session return 0, 1, ..., n - 1 densely. Each one is an index below `nVars()`, and so an index into a model of `nVars()` entries. |
| `Sessions.ThreeClauseScenario` | libminisat_stubs.c:127-151 | After allocating variables 0, 1, 2 and adding `(pos 0, pos 1)`, `(neg 0, pos 2)` and `(neg 1, neg 2)`, the engine has received exactly those clauses as `mkLit(v, true)` / `mkLit(v, false)` literals, in order. |

## Left out

- OCaml runtime plumbing (`CAMLparam`, `CAMLreturn`, `caml_alloc`, `alloc_small` with `Abstract_tag`, `Store_field`, `Val_int`/`Int_val` tagging) is not modelled. It only carries values across the boundary and manages the garbage collector.
- The unused helpers `Val_some`, `tuple` and `append` (lines 43-66) are not modelled. None of the exported stubs calls them.
- The MiniSat engine is not modelled: `addClause`, `simplify`, `solve`, `solveLimited`, `value` and how `okay()`, `model` and `conflict` evolve. It is a foreign library. Its results are arbitrary booleans, lbool codes and sequences. No satisfiability, model-correctness or conflict-minimality property is claimed.
- `new Solver()` / `delete` pointer ownership is modelled only as the `disposed` flag.
- Codec.MakeLit: computes `v + v + sign` over unbounded integers. For variables of 2^30 and above, MiniSat's 32-bit `int` addition overflows, which is undefined in C++ and not modelled. `Codec.MakeLitFitsInt32` states where the computation is exact.
- Codec.LitToVar: does not model the truncation of OCaml's 63-bit integers to 32 bits. `Int_val` returns a 63-bit `intnat`, and the cut happens where that value is passed as MiniSat's `int` (`toLit`, or `mkLit`'s `Var`). The same holds for the other codec stubs and for the marshaled array elements.
- Sessions.Session.ValueOf: requires a variable below `nVars()`. The stub does not check this, and MiniSat's `value` indexes its assignment vector without checking either.
- Sessions.Session.Conflict: does not relate `okay()` to the last solve's verdict, because the engine that sets both is not modelled.

## Findings

| source | as written | input that shows it | evidently intended | confidence | as-written member | corrected member |
|---|---|---|---|---|---|---|
| libminisat_stubs.c:182-186 | When `okay()` holds, `minisat_model` copies `model[i]` for every `i < nVars()`. The model vector is filled only by a satisfiable solve and is not grown by `newVar`. | A fresh solver, one `minisat_new_var`, then `minisat_model`: `okay()` is true, `nVars()` is 1 and the model is empty, so `model[0]` is read past the end. A new variable after a satisfiable solve does the same. | Return one code per variable only when a model covers every variable, and the empty array otherwise. | medium, not executed | `Sessions.ModelAsWritten` | `Sessions.Session.Model` |
