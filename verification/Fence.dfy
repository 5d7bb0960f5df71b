/** The fenced resource and the number it keeps in its fence file. */
module Fence {
  /** The largest integer the shell's numeric test understands. */
  const MAX_INT64: nat := 0x7FFF_FFFF_FFFF_FFFF

  /** What the protocol document asks of a resource. */
  predicate ContractRejects(token: nat, highest: nat) {
    token < highest
  }

  /**
   The rule of the script: an operand beyond 64 signed bits makes the shell's test fail, and a
   failed test does not reject.
   */
  predicate ScriptRejects(token: nat, highest: nat) {
    token <= MAX_INT64 && highest <= MAX_INT64 && token < highest
  }

  /** The script implements the contract except for a stale token against a fence beyond 64 signed bits. */
  lemma ScriptMeetsContractIff(token: nat, highest: nat)
    ensures ScriptRejects(token, highest) == ContractRejects(token, highest)
       <==> !(token < highest && highest > MAX_INT64)
  {
  }

  class FencedTarget {
    /** The contents of the fence file, 0 when there is none. */
    var highest: nat
    /** The tokens of the writes accepted so far. */
    ghost var accepted: seq<nat>

    ghost predicate Valid()
      reads this
    {
      && highest == (if accepted == [] then 0 else accepted[|accepted| - 1])
      && (Fits(accepted) ==> NonDecreasing(accepted))
    }

    constructor ()
      ensures Valid() && accepted == []
    {
      highest, accepted := 0, [];
    }

    /**
     While no accepted token is beyond 64 signed bits, a write is accepted exactly when no accepted
     one carried a higher token.
     */
    method WriteFenced(token: nat) returns (ok: bool)
      requires Valid()
      modifies this
      ensures Valid()
      ensures ok == !ScriptRejects(token, old(highest))
      ensures Fits(old(accepted)) ==> (ok <==> forall t | t in old(accepted) :: t <= token)
      ensures accepted == if ok then old(accepted) + [token] else old(accepted)
      ensures highest == if ok then token else old(highest)
    {
      if Fits(accepted) && accepted != [] {
        LastIsHighest(accepted);
        assert highest in accepted;
      }
      if ScriptRejects(token, highest) {
        return false;
      }
      highest := token;
      accepted := accepted + [token];
      assert Fits(accepted) ==> Fits(old(accepted)) by {
        assert forall t | t in old(accepted) :: t in accepted;
      }
      return true;
    }
  }

  ghost predicate Fits(s: seq<nat>) {
    forall t | t in s :: t <= MAX_INT64
  }

  ghost predicate NonDecreasing(s: seq<nat>) {
    forall i, j | 0 <= i < j < |s| :: s[i] <= s[j]
  }

  lemma LastIsHighest(s: seq<nat>)
    requires NonDecreasing(s) && s != []
    ensures forall t | t in s :: t <= s[|s| - 1]
  {
  }
}
