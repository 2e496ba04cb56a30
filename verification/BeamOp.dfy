/** Operands of BEAM instructions, as the loader keeps them. */
module BeamOp {

  /**
   The tags: unsigned number, integer, atom, registers, label, NIL, no label, literal, float
   register, and a number that is too large.
   */
  datatype Tag = TagU | TagI | TagA | TagX | TagY | TagF | TagN | TagP | TagQ | TagL | TagO

  datatype Arg = Arg(tag: Tag, val: nat)
}
