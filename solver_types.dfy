/**
 * MiniSat's literal and lifted-boolean types, as far as the OCaml binding
 * relies on them. A literal packs a variable and a sign into one machine
 * integer, `x = var + var + sign`, so the variable is `x >> 1` and the sign
 * is the low bit `x & 1`.
 */
module SolverTypes {

  datatype Option<T> = None | Some(value: T)

  /** MiniSat's `Lit`: a struct holding the packed integer. */
  datatype Lit = Lit(x: int)

  /** MiniSat's `mkLit(var, sign)`. */
  function MkLit(v: int, sign: bool): Lit
  {
    Lit(v + v + (if sign then 1 else 0))
  }

  /**
   * MiniSat's `var(p)`, the arithmetic shift `p.x >> 1`. A shift right by one
   * rounds towards minus infinity, which is what Dafny's `/ 2` does.
   */
  function VarOf(p: Lit): int
  {
    p.x / 2
  }

  /**
   * MiniSat's `sign(p)`, the low bit `p.x & 1`. In two's complement the low
   * bit of any integer is its non-negative remainder modulo 2.
   */
  function Sign(p: Lit): bool
  {
    p.x % 2 == 1
  }

  /** MiniSat's `toLit(int)`: reinterprets an integer as a literal. */
  function ToLit(i: int): Lit
  {
    Lit(i)
  }

  /** MiniSat's `toInt(Lit)`: the packed integer of a literal. */
  function LitToInt(p: Lit): int
  {
    p.x
  }

  /** MiniSat's lifted boolean `lbool`: true, false or undefined. */
  datatype LBool = LTrue | LFalse | LUndef

  /**
   * MiniSat's `toInt(lbool)`, which the binding hands to OCaml unchanged:
   * l_True is 0, l_False is 1 and l_Undef is 2.
   */
  function LBoolToInt(b: LBool): (c: int)
    ensures 0 <= c <= 2
    ensures c == 0 <==> b == LTrue
    ensures c == 1 <==> b == LFalse
  {
    match b
    case LTrue => 0
    case LFalse => 1
    case LUndef => 2
  }

  /** The inverse of the code table documented at libminisat_stubs.c:175. */
  function LBoolOfInt(c: int): (r: Option<LBool>)
    ensures r.Some? <==> 0 <= c <= 2
    ensures r.Some? ==> LBoolToInt(r.value) == c
  {
    if c == 0 then Some(LTrue)
    else if c == 1 then Some(LFalse)
    else if c == 2 then Some(LUndef)
    else None
  }

  /** The three codes are distinct, so decoding a code gives back the value. */
  lemma LBoolCodeRoundTrip(b: LBool)
    ensures LBoolOfInt(LBoolToInt(b)) == Some(b)
  {
  }

  /** Two lifted booleans with the same code are the same. */
  lemma LBoolCodeInjective(a: LBool, b: LBool)
    ensures LBoolToInt(a) == LBoolToInt(b) <==> a == b
  {
  }
}
