/**
 Reduction of a change's raw actions to the single action it is shown under
 (`getPrimaryAction`, src/utils/parsePlan.ts).
 */
module PrimaryActions {
  import opened Terraform

  /** Display priority: delete > create > update > read > no-op. */
  function Priority(a: Action): nat {
    match a
    case Delete => 4
    case Create => 3
    case Update => 2
    case Read => 1
    case NoOp => 0
  }

  /**
   The primary action is one of the raw actions (or `no-op` for an empty list)
   and no raw action has a higher priority.
   */
  function PrimaryAction(actions: seq<Action>): (r: Action)
    ensures r in actions || r == NoOp
    ensures forall a :: a in actions ==> Priority(a) <= Priority(r)
  {
    if Delete in actions then Delete
    else if Create in actions then Create
    else if Update in actions then Update
    else if Read in actions then Read
    else NoOp
  }

  /** Only the set of raw actions matters, not their order or repetition. */
  lemma OrderIndependent(xs: seq<Action>, ys: seq<Action>)
    requires forall a :: a in xs <==> a in ys
    ensures PrimaryAction(xs) == PrimaryAction(ys)
  {
  }

  /** A replacement (delete and create) is shown as a delete; no actions is a no-op. */
  lemma Examples()
    ensures PrimaryAction([Create, Delete]) == Delete
    ensures PrimaryAction([Delete, Create]) == Delete
    ensures PrimaryAction([Update]) == Update
    ensures PrimaryAction([Read]) == Read
    ensures PrimaryAction([]) == NoOp
  {
    assert Delete in [Create, Delete];
    assert Delete in [Delete, Create];
    assert Update in [Update];
    assert Read in [Read];
  }
}
