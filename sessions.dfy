/**
 * The solver session the binding wraps around one MiniSat `Solver`. The
 * engine's own state is abstracted to the fields the stubs read or feed:
 * the variable count, the `okay()` flag, the `model` and `conflict` vectors
 * left by the last solve, and the clauses and assumptions handed to it. What
 * the engine computes in `addClause`, `simplify` and the solve calls is
 * not modelled: those results are arbitrary values of the right type.
 */
module Sessions {
  import opened SolverTypes
  import Marshal
  import Codec

  /** What the code of `minisat_model` as written does on a given state. */
  datatype ModelRead =
    | Returned(codes: seq<int>)
    | ReadsPastModel(index: nat)  // reads `model[index]` beyond the end of MiniSat's `model` vector

  /** The lbool codes of a sequence of assignments, entry by entry. */
  function LBoolCodes(m: seq<LBool>): (codes: seq<int>)
    ensures |codes| == |m|
    ensures forall i :: 0 <= i < |m| ==> codes[i] == LBoolToInt(m[i]) && 0 <= codes[i] <= 2
  {
    if m == [] then [] else [LBoolToInt(m[0])] + LBoolCodes(m[1..])
  }

  /**
   * `minisat_model` as written: when `okay()` holds it copies `model[i]` for
   * every `i < nVars()`, whether or not the model vector is that long.
   */
  function ModelAsWritten(okay: bool, nVars: nat, model: seq<LBool>): (r: ModelRead)
    ensures r.ReadsPastModel? <==> okay && |model| < nVars
    ensures r.ReadsPastModel? ==> r.index == |model|
    ensures r.Returned? && !okay ==> r.codes == []
    ensures r.Returned? && okay ==>
      |r.codes| == nVars && forall i :: 0 <= i < nVars ==> r.codes[i] == LBoolToInt(model[i])
  {
    if !okay then Returned([])
    else if |model| < nVars then ReadsPastModel(|model|)
    else Returned(LBoolCodes(model[..nVars]))
  }

  /**
   * The model as `minisat_model` evidently means to return it: exactly one
   * code in {0, 1, 2} per variable when the engine is okay and holds a value
   * for every variable, and the empty array otherwise.
   */
  function ModelGated(okay: bool, nVars: nat, model: seq<LBool>): (codes: seq<int>)
    ensures okay && |model| == nVars ==>
      |codes| == nVars &&
      forall i :: 0 <= i < nVars ==> codes[i] == LBoolToInt(model[i]) && 0 <= codes[i] <= 2
    ensures !(okay && |model| == nVars) ==> codes == []
  {
    if okay && |model| == nVars then LBoolCodes(model) else []
  }

  /**
   * Allocating one more variable after a solve that left a model for every
   * variable makes the code as written read past the end of the model.
   */
  lemma AsWrittenReadsPastModelAfterNewVar(nVars: nat, model: seq<LBool>)
    requires |model| <= nVars
    ensures ModelAsWritten(true, nVars + 1, model) == ReadsPastModel(|model|)
  {
  }

  /**
   * The corrected gate changes nothing where the code as written stays in
   * bounds: there both return the same codes.
   */
  lemma GatedAgreesWithAsWritten(okay: bool, nVars: nat, model: seq<LBool>)
    requires |model| <= nVars
    ensures ModelAsWritten(okay, nVars, model).Returned? ==>
      ModelAsWritten(okay, nVars, model).codes == ModelGated(okay, nVars, model)
  {
    if okay && |model| == nVars {
      assert model[..nVars] == model;
    }
  }

  class Session {
    /** The engine's `nVars()`: how many variables it has allocated. */
    var nVars: nat
    /** The engine's `okay()`: false once the clause database is known unsatisfiable. */
    var okay: bool
    /** The engine's `model` vector as left by the last solve. */
    var model: seq<LBool>
    /** The engine's `conflict` set as left by the last solve. */
    var conflict: seq<Lit>
    /** Every clause handed to the engine's `addClause`, in order. */
    var clauses: seq<seq<Lit>>
    /** The assumption literals handed to the engine by the last solve. */
    var assumptions: seq<Lit>
    /** Set once `minisat_del` has deleted the engine. */
    var disposed: bool

    /** The engine never holds a value for a variable it has not allocated. */
    ghost predicate Valid()
      reads this
    {
      |model| <= nVars
    }

    /** `minisat_new`: a session over a freshly constructed engine. */
    constructor ()
      ensures Valid()
      ensures nVars == 0 && okay && model == [] && conflict == []
      ensures clauses == [] && assumptions == [] && !disposed
    {
      nVars, okay, model, conflict := 0, true, [], [];
      clauses, assumptions, disposed := [], [], false;
    }

    /** `minisat_del`: deletes the engine; the session may not be used afterwards. */
    method Delete()
      requires !disposed
      modifies this
      ensures disposed
      ensures nVars == old(nVars) && okay == old(okay) && model == old(model)
      ensures conflict == old(conflict) && clauses == old(clauses) && assumptions == old(assumptions)
    {
      disposed := true;
    }

    /** `minisat_new_var`: returns the current variable count and increments it. */
    method NewVar() returns (v: nat)
      requires Valid() && !disposed
      modifies this
      ensures Valid() && !disposed
      ensures v == old(nVars) && nVars == old(nVars) + 1
      ensures okay == old(okay) && model == old(model) && conflict == old(conflict)
      ensures clauses == old(clauses) && assumptions == old(assumptions)
    {
      v := nVars;
      nVars := nVars + 1;
    }

    /**
     * A solve inside the engine, whose effect is not modelled: it may change
     * the `okay()` flag, the model and the conflict, and nothing else.
     */
    method EngineStep()
      requires Valid() && !disposed
      modifies this
      ensures Valid() && !disposed
      ensures nVars == old(nVars) && clauses == old(clauses) && assumptions == old(assumptions)
    {
      okay := *;
      var m: seq<LBool> :| |m| <= nVars;
      model := m;
      conflict := *;
    }

    /**
     * `minisat_add_clause`: marshals the array into a fresh `vec<Lit>` and
     * hands exactly those literals, in order, to the engine's `addClause`,
     * whose verdict is returned.
     */
    method AddClause(lits: array<int>) returns (ok: bool)
      requires Valid() && !disposed
      modifies this
      ensures Valid() && !disposed
      ensures clauses == old(clauses) + [Marshal.ToLits(lits[..])]
      ensures nVars == old(nVars) && model == old(model) && conflict == old(conflict)
      ensures assumptions == old(assumptions)
    {
      var c := new Marshal.LitVec();
      Marshal.ClauseVal(lits, c);
      clauses := clauses + [c.elems];
      okay := *;
      ok := *;
    }

    /** `minisat_simplify`: the engine's `simplify()` verdict. */
    method Simplify() returns (ok: bool)
      requires Valid() && !disposed
      modifies this
      ensures Valid() && !disposed
      ensures nVars == old(nVars) && model == old(model) && conflict == old(conflict)
      ensures clauses == old(clauses) && assumptions == old(assumptions)
    {
      okay := *;
      ok := *;
    }

    /**
     * `minisat_conflict`: the conflict literals, in order, when the engine is
     * not okay, and the empty array when it is.
     */
    method Conflict() returns (arr: array<int>)
      requires !disposed
      ensures fresh(arr)
      ensures okay ==> arr.Length == 0
      ensures !okay ==> arr[..] == Marshal.ToInts(conflict)
    {
      arr := new int[0];
      if !okay {
        arr := Marshal.ValClause(conflict);
      }
    }

    /**
     * `minisat_model`, with the gate corrected so that it never reads past
     * the engine's model: one lbool code per variable, in variable order,
     * when the engine is okay and holds a value for every variable, and the
     * empty array otherwise.
     */
    method Model() returns (arr: array<int>)
      requires Valid() && !disposed
      ensures fresh(arr)
      ensures arr[..] == ModelGated(okay, nVars, model)
      ensures ModelAsWritten(okay, nVars, model).Returned? ==>
        arr[..] == ModelAsWritten(okay, nVars, model).codes
    {
      GatedAgreesWithAsWritten(okay, nVars, model);
      if okay && |model| == nVars {
        arr := new int[nVars];
        var i := 0;
        while i < nVars
          invariant 0 <= i <= nVars
          invariant forall k :: 0 <= k < i ==> arr[k] == LBoolToInt(model[k])
        {
          arr[i] := LBoolToInt(model[i]);
          i := i + 1;
        }
      } else {
        arr := new int[0];
      }
    }

    /**
     * `minisat_solveLimited`: a budgeted solve without assumptions (an empty
     * assumption vector is passed); returns the lbool code of the verdict.
     */
    method SolveLimited() returns (code: int)
      requires Valid() && !disposed
      modifies this
      ensures Valid() && !disposed
      ensures LBoolOfInt(code).Some?
      ensures assumptions == []
      ensures nVars == old(nVars) && clauses == old(clauses)
    {
      var verdict: LBool := *;
      assumptions := [];
      EngineStep();
      code := LBoolToInt(verdict);
    }

    /** `minisat_solve`: an unbudgeted solve without assumptions. */
    method Solve() returns (sat: bool)
      requires Valid() && !disposed
      modifies this
      ensures Valid() && !disposed
      ensures assumptions == []
      ensures nVars == old(nVars) && clauses == old(clauses)
    {
      assumptions := [];
      EngineStep();
      sat := *;
    }

    /**
     * `minisat_solve_with_assumption`: marshals the array into a fresh
     * `vec<Lit>` and solves under exactly those assumption literals.
     */
    method SolveWithAssumption(lits: array<int>) returns (sat: bool)
      requires Valid() && !disposed
      modifies this
      ensures Valid() && !disposed
      ensures assumptions == Marshal.ToLits(lits[..])
      ensures nVars == old(nVars) && clauses == old(clauses)
    {
      var a := new Marshal.LitVec();
      Marshal.ClauseVal(lits, a);
      assumptions := a.elems;
      EngineStep();
      sat := *;
    }

    /**
     * `minisat_value_of`: the lbool code of the engine's current value for
     * variable `v`, which must be one the engine has allocated.
     */
    method ValueOf(v: int) returns (code: int)
      requires !disposed
      requires 0 <= v < nVars
      ensures LBoolOfInt(code).Some?
    {
      var value: LBool := *;
      code := LBoolToInt(value);
    }
  }

  /**
   * `n` successive `minisat_new_var` calls on a fresh session return
   * 0, 1, ..., n - 1, each of them an index below the session's `nVars()`.
   */
  method AllocateVariables(n: nat) returns (s: Session, vs: seq<int>)
    ensures s.Valid() && !s.disposed && s.nVars == n
    ensures |vs| == n && forall i :: 0 <= i < n ==> vs[i] == i
    ensures forall i :: 0 <= i < n ==> 0 <= vs[i] < s.nVars
  {
    s := new Session();
    vs := [];
    while |vs| < n
      invariant s.Valid() && !s.disposed
      invariant s.nVars == |vs| <= n
      invariant forall i :: 0 <= i < |vs| ==> vs[i] == i
    {
      var v := s.NewVar();
      vs := vs + [v];
    }
  }

  /**
   * On a fresh session, one `minisat_new_var` followed by `minisat_model`
   * as written reads `model[0]` of an empty model.
   */
  method FreshSessionModelAsWritten() returns (r: ModelRead)
    ensures r == ReadsPastModel(0)
  {
    var s := new Session();
    var v := s.NewVar();
    r := ModelAsWritten(s.okay, s.nVars, s.model);
  }

  /**
   * The three-variable scenario: allocate variables 0, 1 and 2 and add the
   * clauses `pos 0 ∨ pos 1`, `neg 0 ∨ pos 2` and `neg 1 ∨ neg 2` built with
   * `minisat_pos_lit` and `minisat_neg_lit`. The engine receives exactly MiniSat's literals
   * `mkLit(v, true)` / `mkLit(v, false)` over the allocated variables.
   */
  method ThreeClauseScenario() returns (s: Session)
    ensures s.Valid() && !s.disposed && s.nVars == 3
    ensures s.clauses == [
      [MkLit(0, true), MkLit(1, true)],
      [MkLit(0, false), MkLit(2, true)],
      [MkLit(1, false), MkLit(2, false)]]
  {
    s := new Session();
    var a := s.NewVar();
    var b := s.NewVar();
    var c := s.NewVar();
    var c1 := new int[] [Codec.PosLit(a), Codec.PosLit(b)];
    var c2 := new int[] [Codec.NegLit(a), Codec.PosLit(c)];
    var c3 := new int[] [Codec.NegLit(b), Codec.NegLit(c)];
    assert Marshal.ToLits(c1[..]) == [MkLit(0, true), MkLit(1, true)];
    assert Marshal.ToLits(c2[..]) == [MkLit(0, false), MkLit(2, true)];
    assert Marshal.ToLits(c3[..]) == [MkLit(1, false), MkLit(2, false)];
    var ok := s.AddClause(c1);
    ok := s.AddClause(c2);
    ok := s.AddClause(c3);
  }
}
