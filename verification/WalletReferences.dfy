/** The text of the unique ledger references, and when two of them are the same. */
module WalletReferences {
  import opened WalletTables

  function Render(r: LedgerRef): string {
    match r
    case TopupRef(i) => "WLT_TOPUP_" + i
    case DebitRef(w) => "WLT_WITHDRAW_" + w
    case ReversalRef(w) => "WLT_WITHDRAW_REV_" + w
  }

  predicate ReversalInDisguise(debit: LedgerRef, reversal: LedgerRef) {
    debit.DebitRef? && reversal.ReversalRef? && debit.withdrawal == "REV_" + reversal.withdrawal
  }

  /** On arbitrary ids two references collide only when a debit's id spells out a reversal. */
  lemma ReferencesCollideExactly(a: LedgerRef, b: LedgerRef)
    ensures Render(a) == Render(b) <==> a == b || ReversalInDisguise(a, b) || ReversalInDisguise(b, a)
  {
    var x, y := Render(a), Render(b);
    Prefixed("WLT_TOPUP_", "WLT_WITHDRAW_", "WLT_WITHDRAW_REV_", a, x);
    Prefixed("WLT_TOPUP_", "WLT_WITHDRAW_", "WLT_WITHDRAW_REV_", b, y);
    assert "WLT_WITHDRAW_REV_" == "WLT_WITHDRAW_" + "REV_";
    if a.DebitRef? && b.ReversalRef? {
      assert Render(b) == "WLT_WITHDRAW_" + ("REV_" + b.withdrawal);
    }
    if a.ReversalRef? && b.DebitRef? {
      assert Render(a) == "WLT_WITHDRAW_" + ("REV_" + a.withdrawal);
    }
    if x == y {
      assert x[4] == y[4];
    }
  }

  /** A rendered reference keeps its prefix and its id recoverable by position. */
  lemma Prefixed(topup: string, debit: string, reversal: string, r: LedgerRef, x: string)
    requires topup == "WLT_TOPUP_" && debit == "WLT_WITHDRAW_" && reversal == "WLT_WITHDRAW_REV_" && x == Render(r)
    ensures r.TopupRef? ==> |x| >= 10 && x[4] == 'T' && x[10..] == r.intent
    ensures !r.TopupRef? ==> |x| >= 13 && x[4] == 'W'
    ensures r.DebitRef? ==> x[13..] == r.withdrawal
    ensures r.ReversalRef? ==> |x| >= 17 && x[17..] == r.withdrawal && x[13..] == "REV_" + r.withdrawal
  {
  }

  predicate IsHex(c: char) { '0' <= c <= '9' || 'a' <= c <= 'f' }

  /** The text form of a UUID (section 4 of RFC 9562), in lower case. */
  predicate IsUuid(s: string) {
    && |s| == 36
    && forall i | 0 <= i < 36 :: if i in {8, 13, 18, 23} then s[i] == '-' else IsHex(s[i])
  }

  function IdOf(r: LedgerRef): Id {
    match r
    case TopupRef(i) => i
    case DebitRef(w) => w
    case ReversalRef(w) => w
  }

  /** On UUID ids the three builders never collide, so the ledger may be keyed by builder and id. */
  lemma UuidReferencesAreDistinct(a: LedgerRef, b: LedgerRef)
    requires IsUuid(IdOf(a)) && IsUuid(IdOf(b)) && Render(a) == Render(b)
    ensures a == b
  {
    ReferencesCollideExactly(a, b);
    assert |"REV_"| == 4;
  }
}
