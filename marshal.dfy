/**
 * Marshaling of clauses between OCaml integer arrays and MiniSat's literal
 * containers: `clause_val` pushes every array element, as a literal, onto a
 * caller-owned `vec<Lit>`; `Val_clause` copies a literal set into a freshly
 * allocated integer array of the same size.
 */
module Marshal {
  import opened SolverTypes

  /** MiniSat's `vec<Lit>`: a growable vector owned by the caller. */
  class LitVec {
    var elems: seq<Lit>

    constructor ()
      ensures elems == []
    {
      elems := [];
    }

    method Push(p: Lit)
      modifies this
      ensures elems == old(elems) + [p]
    {
      elems := elems + [p];
    }
  }

  /** The literals an integer array stands for, read front to back. */
  function ToLits(xs: seq<int>): (ps: seq<Lit>)
    ensures |ps| == |xs|
    ensures forall i :: 0 <= i < |xs| ==> ps[i] == ToLit(xs[i])
  {
    if xs == [] then [] else [ToLit(xs[0])] + ToLits(xs[1..])
  }

  /** The integers a sequence of literals is encoded as, in order. */
  function ToInts(ps: seq<Lit>): (xs: seq<int>)
    ensures |xs| == |ps|
    ensures forall i :: 0 <= i < |ps| ==> xs[i] == LitToInt(ps[i])
  {
    if ps == [] then [] else [LitToInt(ps[0])] + ToInts(ps[1..])
  }

  /** Reading integers as literals and writing them back loses nothing, either way round. */
  lemma MarshalInverse(xs: seq<int>, ps: seq<Lit>)
    ensures ToInts(ToLits(xs)) == xs
    ensures ToLits(ToInts(ps)) == ps
  {
  }

  /** Converting a longer prefix of an array adds one literal at the end. */
  lemma ToLitsSnoc(xs: seq<int>, x: int)
    ensures ToLits(xs + [x]) == ToLits(xs) + [ToLit(x)]
  {
  }

  /**
   * `clause_val`: appends one literal per array element to `clause`, in the
   * array's order, leaving the literals already in `clause` as they were.
   */
  method ClauseVal(arr: array<int>, clause: LitVec)
    modifies clause
    ensures clause.elems == old(clause.elems) + ToLits(arr[..])
    ensures |clause.elems| == |old(clause.elems)| + arr.Length
    ensures clause.elems[..|old(clause.elems)|] == old(clause.elems)
    ensures forall i :: 0 <= i < arr.Length ==> clause.elems[|old(clause.elems)| + i] == ToLit(arr[i])
  {
    var i := 0;
    while i < arr.Length
      invariant 0 <= i <= arr.Length
      invariant clause.elems == old(clause.elems) + ToLits(arr[..i])
    {
      assert arr[..i + 1] == arr[..i] + [arr[i]];
      ToLitsSnoc(arr[..i], arr[i]);
      clause.Push(ToLit(arr[i]));
      i := i + 1;
    }
    assert arr[..i] == arr[..];
  }

  /**
   * `Val_clause`: a fresh integer array of the clause's size whose element
   * `i` is the integer encoding of the clause's literal `i`.
   */
  method ValClause(clause: seq<Lit>) returns (arr: array<int>)
    ensures fresh(arr)
    ensures arr.Length == |clause|
    ensures forall i :: 0 <= i < |clause| ==> arr[i] == LitToInt(clause[i])
    ensures arr[..] == ToInts(clause)
  {
    arr := new int[|clause|];
    var i := 0;
    while i < |clause|
      invariant 0 <= i <= |clause|
      invariant forall k :: 0 <= k < i ==> arr[k] == LitToInt(clause[k])
    {
      arr[i] := LitToInt(clause[i]);
      i := i + 1;
    }
  }

  /**
   * Marshaling an integer array into a fresh `vec<Lit>` with `clause_val` and
   * back out with `Val_clause` gives an array equal to the original.
   */
  method MarshalRoundTrip(arr: array<int>) returns (back: array<int>)
    ensures back[..] == arr[..]
  {
    var c := new LitVec();
    ClauseVal(arr, c);
    back := ValClause(c.elems);
    MarshalInverse(arr[..], []);
  }
}
