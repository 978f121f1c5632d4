/** Counting distinct valid approvals of a multi-signature policy. */
module Quorum {
  import opened Base

  datatype Config = Config(signers: seq<Address>, required: U32)

  datatype Error = EmptySigners | InsufficientThreshold | ThresholdExceedsSigners | DuplicateSigner | NotEnoughApprovals

  /** A policy needs unique signers, at least two approvals, and no more than there are signers. */
  ghost predicate IsMultisig(c: Config) {
    2 <= c.required <= |c.signers| && NoDuplicates(c.signers)
  }

  ghost function ValidApprovers(c: Config, approvals: seq<Address>): set<Address> {
    Elements(approvals) * Elements(c.signers)
  }

  method ValidateMultisigConfig(c: Config) returns (r: Result<(), Error>)
    ensures r.Ok? <==> IsMultisig(c)
    ensures r == if c.signers == [] then Abort(EmptySigners)
                 else if c.required < 2 then Abort(InsufficientThreshold)
                 else if c.required > |c.signers| then Abort(ThresholdExceedsSigners)
                 else if !NoDuplicates(c.signers) then Abort(DuplicateSigner)
                 else Ok(())
  {
    var n := |c.signers|;
    if n == 0 {
      return Abort(EmptySigners);
    }
    if c.required < 2 {
      return Abort(InsufficientThreshold);
    }
    if c.required > n {
      return Abort(ThresholdExceedsSigners);
    }
    var i := 0;
    while i < n
      invariant 0 <= i <= n
      invariant forall k, l :: 0 <= k < i && k < l < n ==> c.signers[k] != c.signers[l]
    {
      var j := i + 1;
      while j < n
        invariant i < j <= n
        invariant forall l :: i < l < j ==> c.signers[i] != c.signers[l]
      {
        if c.signers[i] == c.signers[j] {
          return Abort(DuplicateSigner);
        }
        j := j + 1;
      }
      i := i + 1;
    }
    return Ok(());
  }

  /** The first position of the address among the signers. */
  method SignerIndex(c: Config, a: Address) returns (index: Option<nat>)
    ensures index.None? <==> a !in c.signers
    ensures index.Some? ==> index.value < |c.signers| && c.signers[index.value] == a && a !in c.signers[..index.value]
  {
    var i := 0;
    while i < |c.signers|
      invariant 0 <= i <= |c.signers| && a !in c.signers[..i]
    {
      if c.signers[i] == a {
        return Some(i);
      }
      i := i + 1;
    }
    return None;
  }

  lemma ApproversSoFar(c: Config, approvals: seq<Address>, i: nat)
    requires i < |approvals|
    ensures var before, now := ValidApprovers(c, approvals[..i]), ValidApprovers(c, approvals[..i + 1]);
      if approvals[i] in c.signers && approvals[i] !in approvals[..i]
      then now == before + {approvals[i]} && approvals[i] !in before
      else now == before
  {
    assert approvals[..i + 1] == approvals[..i] + [approvals[i]];
    if approvals[i] in approvals[..i] {
      assert Elements(approvals[..i + 1]) == Elements(approvals[..i]);
    } else {
      assert Elements(approvals[..i + 1]) == Elements(approvals[..i]) + {approvals[i]};
    }
  }

  /** The nested loops count each listed signer once, whatever the order and repetition of the approvals. */
  method CountDistinctValidApprovals(c: Config, approvals: seq<Address>) returns (count: nat)
    ensures count == |ValidApprovers(c, approvals)|
  {
    count := 0;
    var i := 0;
    while i < |approvals|
      invariant 0 <= i <= |approvals|
      invariant count == |ValidApprovers(c, approvals[..i])|
    {
      var a := approvals[i];
      var index := SignerIndex(c, a);
      ApproversSoFar(c, approvals, i);
      if index.Some? {
        var isFirst, j := true, 0;
        while j < i
          invariant 0 <= j <= i
          invariant isFirst <==> a !in approvals[..j]
        {
          if approvals[j] == a {
            isFirst := false;
            assert a in approvals[..i];
            break;
          }
          j := j + 1;
        }
        if isFirst {
          count := count + 1;
        }
      }
      i := i + 1;
    }
    assert approvals[..i] == approvals;
  }

  /** Approval is granted exactly when the policy is valid and enough distinct signers approved. */
  method RequireMultisigApprovals(c: Config, approvals: seq<Address>) returns (r: Result<(), Error>)
    ensures r.Ok? <==> Granted(c, approvals)
    ensures r == Abort(NotEnoughApprovals) <==> IsMultisig(c) && |ValidApprovers(c, approvals)| < c.required
  {
    var valid := ValidateMultisigConfig(c);
    if valid.Abort? {
      return valid;
    }
    var count := CountDistinctValidApprovals(c, approvals);
    if count < c.required {
      return Abort(NotEnoughApprovals);
    }
    return Ok(());
  }

  ghost predicate Granted(c: Config, approvals: seq<Address>) {
    IsMultisig(c) && |ValidApprovers(c, approvals)| >= c.required
  }

  /** More approvals never revoke a grant, and only whose approvals are listed matters, not their order, their repetition or
      those of strangers. */
  lemma OnlySignersDecide(c: Config, approvals: seq<Address>, others: seq<Address>)
    requires forall a <- c.signers :: a in approvals ==> a in others
    ensures Granted(c, approvals) ==> Granted(c, others)
    ensures (forall a <- c.signers :: a in others ==> a in approvals) ==> (Granted(c, approvals) <==> Granted(c, others))
  {
    SubsetCard(ValidApprovers(c, approvals), ValidApprovers(c, others));
    if forall a <- c.signers :: a in others ==> a in approvals {
      assert ValidApprovers(c, approvals) == ValidApprovers(c, others);
    }
  }

  lemma {:induction false} SubsetCard(a: set<Address>, b: set<Address>)
    requires a <= b
    ensures |a| <= |b|
  {
    if a != {} {
      var x :| x in a;
      SubsetCard(a - {x}, b - {x});
    }
  }
}
