/** `simple_validate`: a learned claim is confirmed by the first known
    regulation number it contains, sent to review when it mentions an RCD
    and 30mA, and rejected otherwise. */
module ClaimValidator {
  import opened Wrappers
  import opened Text

  const KNOWN_REGS: seq<string> := ["411.3.3", "643.3", "134.1.1"]

  datatype Verdict =
    | Confirmed(regulation: string)
    | NeedsReview(reason: string)
    | Rejected(reason: string)

  /** The first of `regs`, from index `from`, that occurs in `claim`. */
  function FirstKnown(claim: string, regs: seq<string>, from: nat): (r: Option<nat>)
    requires from <= |regs|
    ensures r.Some? ==> from <= r.value < |regs| && Contains(claim, regs[r.value])
    ensures r.Some? ==> forall j | from <= j < r.value :: !Contains(claim, regs[j])
    ensures r.None? ==> forall j | from <= j < |regs| :: !Contains(claim, regs[j])
    decreases |regs| - from
  {
    if from == |regs| then None
    else if Contains(claim, regs[from]) then Some(from)
    else FirstKnown(claim, regs, from + 1)
  }

  predicate MentionsRcd30mA(claim: string)
  {
    Contains(Lower(claim), "rcd") && Contains(Lower(claim), "30ma")
  }

  /** The verdict, as a function of the claim. */
  function Validate(claim: string): (v: Verdict)
    ensures v.Confirmed? <==> exists r <- KNOWN_REGS :: Contains(claim, r)
    ensures v.Confirmed? ==> v.regulation in KNOWN_REGS && Contains(claim, v.regulation)
    ensures forall i | 0 <= i < |KNOWN_REGS| ::
      Contains(claim, KNOWN_REGS[i]) && (forall j | 0 <= j < i :: !Contains(claim, KNOWN_REGS[j])) ==>
        v == Confirmed(KNOWN_REGS[i])
    ensures v.NeedsReview? <==> (forall r <- KNOWN_REGS :: !Contains(claim, r)) && MentionsRcd30mA(claim)
  {
    match FirstKnown(claim, KNOWN_REGS, 0)
    case Some(i) => Confirmed(KNOWN_REGS[i])
    case None =>
      if MentionsRcd30mA(claim) then NeedsReview("mentions RCD and 30mA")
      else Rejected("no matching regulation found")
  }

  /** `simple_validate`: the loop over the known numbers. */
  method SimpleValidate(claim: string) returns (v: Verdict)
    ensures v == Validate(claim)
  {
    var i := 0;
    while i < |KNOWN_REGS|
      invariant i <= |KNOWN_REGS|
      invariant FirstKnown(claim, KNOWN_REGS, 0) == FirstKnown(claim, KNOWN_REGS, i)
    {
      if Contains(claim, KNOWN_REGS[i]) {
        return Confirmed(KNOWN_REGS[i]);
      }
      i := i + 1;
    }
    if MentionsRcd30mA(claim) {
      return NeedsReview("mentions RCD and 30mA");
    }
    return Rejected("no matching regulation found");
  }

  /** A needle without letters occurs in a string exactly when it occurs in
      its lower-cased form. */
  lemma ContainsIgnoresCase(s: string, needle: string)
    requires forall c <- needle :: !IsUpper(c) && !('a' <= c <= 'z')
    ensures Contains(s, needle) <==> Contains(Lower(s), needle)
  {
    forall i | 0 <= i <= |s| - |needle|
      ensures OccursAt(s, needle, i) <==> OccursAt(Lower(s), needle, i)
    {
      if OccursAt(s, needle, i) {
        forall j | 0 <= j < |needle|
          ensures Lower(s)[i + j] == needle[j]
        {
          assert s[i + j] == s[i..i + |needle|][j];
          assert needle[j] in needle;
        }
        assert Lower(s)[i..i + |needle|] == needle;
      }
      if OccursAt(Lower(s), needle, i) {
        forall j | 0 <= j < |needle|
          ensures s[i + j] == needle[j]
        {
          assert Lower(s)[i + j] == Lower(s)[i..i + |needle|][j];
          assert needle[j] in needle;
        }
        assert s[i..i + |needle|] == needle;
      }
    }
  }

  /** The verdict depends on the claim only up to case: the regulation
      numbers have no letters and the review test lower-cases. */
  lemma VerdictIgnoresCase(claim: string)
    ensures Validate(Lower(claim)) == Validate(claim)
  {
    forall r <- KNOWN_REGS
      ensures Contains(claim, r) <==> Contains(Lower(claim), r)
    {
      ContainsIgnoresCase(claim, r);
    }
    assert Lower(Lower(claim)) == Lower(claim);
    SameFirstKnown(claim, Lower(claim), 0);
  }

  lemma {:induction false} SameFirstKnown(a: string, b: string, from: nat)
    requires from <= |KNOWN_REGS|
    requires forall r <- KNOWN_REGS :: Contains(a, r) <==> Contains(b, r)
    ensures FirstKnown(a, KNOWN_REGS, from) == FirstKnown(b, KNOWN_REGS, from)
    decreases |KNOWN_REGS| - from
  {
    if from < |KNOWN_REGS| {
      assert KNOWN_REGS[from] in KNOWN_REGS;
      SameFirstKnown(a, b, from + 1);
    }
  }

  /** The number test has no word boundaries: a longer number that embeds a
      known one confirms it. */
  lemma NoWordBoundaries()
    ensures Validate("see 1411.3.39") == Confirmed("411.3.3")
  {
    assert OccursAt("see 1411.3.39", "411.3.3", 5);
  }
}
