/**
 * The literal/variable integer codec the binding exports to OCaml. Variables
 * and literals both travel as plain integers; each stub converts through
 * MiniSat's `Lit` and back. "Positive" means `sign = true`, the odd integer
 * `2v + 1`, exactly as the stubs pass it to `mkLit`.
 */
module Codec {
  import opened SolverTypes

  /** `minisat_lit_to_var`: the variable a literal integer refers to. */
  function LitToVar(lit: int): (v: int)
    ensures lit == 2 * v || lit == 2 * v + 1
  {
    VarOf(ToLit(lit))
  }

  /** `minisat_lit_sign`: the sign bit of a literal integer. */
  function LitSign(lit: int): (s: bool)
    ensures lit == 2 * LitToVar(lit) + (if s then 1 else 0)
  {
    Sign(ToLit(lit))
  }

  /** `minisat_mklit`: the literal over `v` with the given sign. */
  function MakeLit(v: int, sign: bool): (lit: int)
    ensures LitToVar(lit) == v
    ensures LitSign(lit) == sign
  {
    LitToInt(MkLit(v, sign))
  }

  /** `minisat_pos_lit`: the literal over `v` with `sign = true`. */
  function PosLit(v: int): (lit: int)
    ensures LitToVar(lit) == v
    ensures LitSign(lit)
  {
    LitToInt(MkLit(v, true))
  }

  /** `minisat_neg_lit`: the literal over `v` with `sign = false`. */
  function NegLit(v: int): (lit: int)
    ensures LitToVar(lit) == v
    ensures !LitSign(lit)
  {
    LitToInt(MkLit(v, false))
  }

  /**
   * The two literals over one variable are the two special cases of
   * MakeLit, decode to that variable with opposite signs, and differ only
   * in the low bit: the negative one is even and the positive one is the
   * next integer, so both have the same bits above bit 0.
   */
  lemma PosNegComplement(v: int)
    ensures PosLit(v) == MakeLit(v, true)
    ensures NegLit(v) == MakeLit(v, false)
    ensures LitToVar(PosLit(v)) == LitToVar(NegLit(v)) == v
    ensures LitSign(PosLit(v)) != LitSign(NegLit(v))
    ensures NegLit(v) % 2 == 0 && PosLit(v) == NegLit(v) + 1
    ensures PosLit(v) / 2 == NegLit(v) / 2
  {
  }

  /** The encoding is injective: distinct (variable, sign) pairs give distinct literals. */
  lemma MakeLitInjective(v1: int, s1: bool, v2: int, s2: bool)
    ensures MakeLit(v1, s1) == MakeLit(v2, s2) <==> v1 == v2 && s1 == s2
  {
    if MakeLit(v1, s1) == MakeLit(v2, s2) {
      assert LitToVar(MakeLit(v1, s1)) == LitToVar(MakeLit(v2, s2));
      assert LitSign(MakeLit(v1, s1)) == LitSign(MakeLit(v2, s2));
    }
  }

  /**
   * The encoding is onto: every literal integer is the encoding of the
   * variable and sign it decodes to. Non-negative literals are exactly the
   * literals over non-negative variables.
   */
  lemma DecodeEncode(lit: int)
    ensures MakeLit(LitToVar(lit), LitSign(lit)) == lit
    ensures 0 <= lit <==> 0 <= LitToVar(lit)
  {
  }

  /**
   * MiniSat computes `var + var + sign` in a C `int`. For a non-negative
   * variable the result stays within the 32-bit signed range exactly when
   * the variable is below 2^30.
   */
  lemma MakeLitFitsInt32(v: int, sign: bool)
    requires 0 <= v
    ensures MakeLit(v, sign) <= 0x7FFF_FFFF <==> v < 0x4000_0000
  {
  }
}
