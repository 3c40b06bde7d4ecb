/** The wallet form of src/components/WalletConnectDialog.tsx: the wallet
    type is a required string, which the form's default "" already is, and
    the wallet ID must be 10 to 64 characters, all ASCII letters or digits. */
module WalletConnectDialog {
  import opened Wrappers

  predicate IsAlphanumeric(c: char) {
    'a' <= c <= 'z' || 'A' <= c <= 'Z' || '0' <= c <= '9'
  }

  /** A matcher for `^[a-zA-Z0-9]+$`: one alphanumeric character, then
      either the end or another match. */
  predicate MatchesAlphanumericPlus(s: string) {
    |s| >= 1 && IsAlphanumeric(s[0]) && (|s| == 1 || MatchesAlphanumericPlus(s[1..]))
  }

  /** The pattern matches exactly the non-empty strings of letters and
      digits. */
  lemma {:induction false} MatchesAlphanumericPlusIff(s: string)
    ensures MatchesAlphanumericPlus(s) <==> |s| >= 1 && forall i :: 0 <= i < |s| ==> IsAlphanumeric(s[i])
    decreases |s|
  {
    if |s| > 1 {
      MatchesAlphanumericPlusIff(s[1..]);
      assert forall i :: 1 <= i < |s| ==> s[i] == s[1..][i - 1];
    }
  }

  /** The schema's input; `walletType` is `None` for an undefined value,
      which the form never submits since it starts the field at "". */
  datatype WalletFormValues = WalletFormValues(walletType: Option<string>, walletId: string)

  /** The form's initial values. */
  const DefaultWalletForm := WalletFormValues(Some(""), "")

  predicate WalletIdAccepted(id: string) {
    |id| >= 10 && |id| <= 64 && MatchesAlphanumericPlus(id)
  }

  predicate WalletAccepted(v: WalletFormValues) {
    v.walletType.Some? && WalletIdAccepted(v.walletId)
  }

  /** An ID is accepted exactly when it has 10 to 64 characters, each a
      letter or a digit; any shorter, longer or other ID is rejected. */
  lemma WalletIdAcceptedIff(id: string)
    ensures WalletIdAccepted(id) <==> 10 <= |id| <= 64 && forall i :: 0 <= i < |id| ==> IsAlphanumeric(id[i])
    ensures |id| < 10 ==> !WalletIdAccepted(id)
    ensures |id| > 64 ==> !WalletIdAccepted(id)
    ensures (exists i :: 0 <= i < |id| && !IsAlphanumeric(id[i])) ==> !WalletIdAccepted(id)
  {
    MatchesAlphanumericPlusIff(id);
  }

  /** Any wallet type, even the empty one, is enough. */
  lemma EmptyWalletTypeAccepted(id: string)
    requires WalletIdAccepted(id)
    ensures WalletAccepted(WalletFormValues(Some(""), id))
    ensures !WalletAccepted(WalletFormValues(None, id))
  {
  }

  /** Because the form starts the type at "", the wallet-type error never
      fires: a form where no type was chosen passes exactly when its ID does. */
  lemma UnchosenTypePasses(id: string)
    ensures WalletAccepted(DefaultWalletForm.(walletId := id)) <==> WalletIdAccepted(id)
    ensures !WalletAccepted(DefaultWalletForm)
  {
  }

  /** A sample address of twelve letters and digits is accepted. */
  lemma SampleIdAccepted()
    ensures WalletIdAccepted("0x1a2b3c4d5e")
  {
    var good := "0x1a2b3c4d5e";
    assert MatchesAlphanumericPlus(good[9..]);
    assert MatchesAlphanumericPlus(good[8..]);
    assert MatchesAlphanumericPlus(good[7..]);
    assert MatchesAlphanumericPlus(good[6..]);
    assert MatchesAlphanumericPlus(good[5..]);
    assert MatchesAlphanumericPlus(good[4..]);
    assert MatchesAlphanumericPlus(good[3..]);
    assert MatchesAlphanumericPlus(good[2..]);
    assert MatchesAlphanumericPlus(good[1..]);
    assert MatchesAlphanumericPlus(good);
  }

  /** The same address with a hyphen in it is rejected. */
  lemma HyphenatedIdRejected()
    ensures !WalletIdAccepted("0x1a2b-3c4d5e")
  {
    var bad := "0x1a2b-3c4d5e";
    assert !IsAlphanumeric(bad[6]);
    WalletIdAcceptedIff(bad);
  }
}
