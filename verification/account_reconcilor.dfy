/** The account reconcilor: it keeps the accounts that hold a refresh token in
    the profile ("chrome accounts") convergent with the accounts signed in to
    the Google web session in the cookie jar ("gaia accounts"). A pass fetches
    the gaia list (ListAccounts) and validates every chrome account's token
    (access token, then userinfo); once both are in, it runs a diff and issues
    merge, add-to-chrome and logout-all actions. The reconcilor's own source
    is not part of this model; what is modelled here is the behaviour its unit
    tests pin down. */
module AccountReconcilor {
  import opened Json
  import opened Wrappers

  type AccountId = string

  /** The action primitives the tests observe through a strict mock. */
  datatype Action =
    | Merge(account: AccountId)
    | AddToChrome(account: AccountId, sessionIndex: nat)
    | LogoutAllAccounts

  // ---------------------------------------------------------------------------
  // ListAccounts parsing

  /** The account id of one ListAccounts entry: its element at index 3, when
      the entry is a list long enough to have one and that element is a
      string. */
  function EntryAccountId(entry: Value): Option<AccountId>
  {
    if entry.List? && |entry.items| > 3 && entry.items[3].Str? then Some(entry.items[3].s) else None
  }

  /** The id an entry contributes: its element at index 3, or nothing. */
  function IdsOfEntry(entry: Value): seq<AccountId>
  {
    if EntryAccountId(entry).Some? then [EntryAccountId(entry).value] else []
  }

  /** The ids of the well-formed entries, in response order; malformed entries
      are skipped. */
  function AccountIdsOf(entries: seq<Value>): (ids: seq<AccountId>)
    ensures |ids| <= |entries|
  {
    if entries == [] then [] else IdsOfEntry(entries[0]) + AccountIdsOf(entries[1..])
  }

  /** Every id comes from some entry of the response. */
  lemma {:induction false} AccountIdsOfFromEntries(entries: seq<Value>)
    ensures forall k :: 0 <= k < |AccountIdsOf(entries)| ==>
      exists j :: 0 <= j < |entries| && EntryAccountId(entries[j]) == Some(AccountIdsOf(entries)[k])
  {
    if entries != [] {
      AccountIdsOfFromEntries(entries[1..]);
      var head := IdsOfEntry(entries[0]);
      var rest := AccountIdsOf(entries[1..]);
      var ids := AccountIdsOf(entries);
      assert ids == head + rest;
      forall k | 0 <= k < |ids| ensures exists j :: 0 <= j < |entries| && EntryAccountId(entries[j]) == Some(ids[k]) {
        if k < |head| {
          assert EntryAccountId(entries[0]) == Some(ids[k]);
        } else {
          assert ids[k] == rest[k - |head|];
          var j :| 0 <= j < |entries[1..]| && EntryAccountId(entries[1..][j]) == Some(rest[k - |head|]);
          assert entries[j + 1] == entries[1..][j];
        }
      }
    } else {
      assert AccountIdsOf(entries) == [];
    }
  }

  /** Parsing distributes over a split of the entry list: an entry's id, or
      its absence, does not depend on its neighbours. */
  lemma {:induction false} AccountIdsOfAppend(a: seq<Value>, b: seq<Value>)
    ensures AccountIdsOf(a + b) == AccountIdsOf(a) + AccountIdsOf(b)
  {
    if a == [] {
      assert a + b == b;
    } else {
      var ab := a + b;
      assert ab[0] == a[0];
      assert ab[1..] == a[1..] + b;
      AccountIdsOfAppend(a[1..], b);
      assert AccountIdsOf(ab) == IdsOfEntry(a[0]) + AccountIdsOf(a[1..] + b);
      assert AccountIdsOf(a) == IdsOfEntry(a[0]) + AccountIdsOf(a[1..]);
    }
  }

  /** When every entry is well formed the ids are exactly the entries'
      elements at index 3, in order. */
  lemma {:induction false} AccountIdsOfWellFormed(entries: seq<Value>)
    requires forall j :: 0 <= j < |entries| ==> EntryAccountId(entries[j]).Some?
    ensures |AccountIdsOf(entries)| == |entries|
    ensures forall j :: 0 <= j < |entries| ==> EntryAccountId(entries[j]) == Some(AccountIdsOf(entries)[j])
  {
    if entries != [] {
      AccountIdsOfWellFormed(entries[1..]);
      assert forall j :: 1 <= j < |entries| ==> entries[1..][j - 1] == entries[j];
    }
  }

  /** The ListAccounts response: a list whose second element is the list of
      account entries. Anything else is a failed fetch. */
  function ParseListAccounts(response: Value): (r: Option<seq<AccountId>>)
    ensures r.Some? <==> response.List? && |response.items| > 1 && response.items[1].List?
    ensures r.Some? ==> r.value == AccountIdsOf(response.items[1].items)
  {
    if response.List? && |response.items| > 1 && response.items[1].List?
    then Some(AccountIdsOf(response.items[1].items))
    else None
  }

  /** One well-formed ListAccounts entry, shaped as the server writes it. */
  function TestEntry(id: AccountId): Value
  {
    List([Str("b"), Number(0), Str("n"), Str(id), Str("p"), Number(0), Number(0), Number(0)])
  }

  /** A response shaped like the tests' gives back its accounts in order. */
  lemma ListAccountsExample(first: AccountId, second: AccountId)
    ensures ParseListAccounts(List([Str("foo"), List([TestEntry(first), TestEntry(second)])]))
         == Some([first, second])
  {
    var entries := [TestEntry(first), TestEntry(second)];
    assert EntryAccountId(entries[0]) == Some(first);
    assert EntryAccountId(entries[1]) == Some(second);
    AccountIdsOfWellFormed(entries);
    var ids := AccountIdsOf(entries);
    assert ids == [first, second];
    assert ParseListAccounts(List([Str("foo"), List(entries)])) == Some(ids);
  }

  // ---------------------------------------------------------------------------
  // The action diff

  /** The session's active account is not the primary account. */
  predicate BadPrimary(primary: AccountId, gaia: seq<AccountId>)
  {
    |gaia| > 0 && gaia[0] != primary
  }

  /** Merge every chrome account that is valid and missing from the session,
      in chrome-account order. */
  function MergeMissing(chrome: seq<AccountId>, valid: set<AccountId>, gaia: seq<AccountId>): (r: seq<Action>)
    ensures forall k :: 0 <= k < |r| ==> r[k].Merge?
    ensures LogoutAllAccounts !in r && forall a, i :: AddToChrome(a, i) !in r
    ensures forall a :: Merge(a) in r <==> a in chrome && a in valid && a !in gaia
    ensures (forall k :: 0 <= k < |chrome| && chrome[k] in valid ==> chrome[k] in gaia) ==> r == []
    ensures (forall i, j :: 0 <= i < j < |chrome| ==> chrome[i] != chrome[j]) ==>
      forall i, j :: 0 <= i < j < |r| ==> r[i] != r[j]
  {
    if chrome == [] then []
    else
      var rest := MergeMissing(chrome[1..], valid, gaia);
      assert forall a :: a in chrome <==> a == chrome[0] || a in chrome[1..];
      if chrome[0] in valid && chrome[0] !in gaia then [Merge(chrome[0])] + rest else rest
  }

  /** Merge every valid chrome account other than the primary one. */
  function MergeOthers(chrome: seq<AccountId>, valid: set<AccountId>, primary: AccountId): (r: seq<Action>)
    ensures forall k :: 0 <= k < |r| ==> r[k].Merge?
    ensures forall a :: Merge(a) in r <==> a in chrome && a in valid && a != primary
    ensures (forall i, j :: 0 <= i < j < |chrome| ==> chrome[i] != chrome[j]) ==>
      forall i, j :: 0 <= i < j < |r| ==> r[i] != r[j]
  {
    if chrome == [] then []
    else
      var rest := MergeOthers(chrome[1..], valid, primary);
      assert forall a :: a in chrome <==> a == chrome[0] || a in chrome[1..];
      if chrome[0] in valid && chrome[0] != primary then [Merge(chrome[0])] + rest else rest
  }

  /** Add to chrome, with its session index, every gaia account from index
      `from` on that is neither valid nor invalid. */
  function AddMissing(gaia: seq<AccountId>, from: nat, valid: set<AccountId>, invalid: set<AccountId>)
    : (r: seq<Action>)
    requires from <= |gaia|
    ensures forall k :: 0 <= k < |r| ==> r[k].AddToChrome? && from <= r[k].sessionIndex < |gaia|
    ensures forall a, i: nat :: AddToChrome(a, i) in r <==>
      from <= i < |gaia| && gaia[i] == a && a !in valid && a !in invalid
    ensures forall i, j :: 0 <= i < j < |r| ==> r[i].sessionIndex < r[j].sessionIndex
    decreases |gaia| - from
  {
    if from == |gaia| then []
    else
      var rest := AddMissing(gaia, from + 1, valid, invalid);
      if gaia[from] !in valid && gaia[from] !in invalid then [AddToChrome(gaia[from], from)] + rest else rest
  }

  /** The adds issue nothing but add-to-chrome actions. */
  lemma AddMissingOnlyAdds(gaia: seq<AccountId>, from: nat, valid: set<AccountId>, invalid: set<AccountId>)
    requires from <= |gaia|
    ensures forall x :: x in AddMissing(gaia, from, valid, invalid) ==> x.AddToChrome?
  {
    var r := AddMissing(gaia, from, valid, invalid);
    forall x | x in r ensures x.AddToChrome? {
      var k :| 0 <= k < |r| && r[k] == x;
    }
  }

  /** When validation covered every session account from `from` on, there
      is nothing to add. */
  lemma {:induction false} AddMissingNone(gaia: seq<AccountId>, from: nat, valid: set<AccountId>,
                                          invalid: set<AccountId>)
    requires from <= |gaia|
    requires forall i :: from <= i < |gaia| ==> gaia[i] in valid || gaia[i] in invalid
    ensures AddMissing(gaia, from, valid, invalid) == []
    decreases |gaia| - from
  {
    if from < |gaia| {
      AddMissingNone(gaia, from + 1, valid, invalid);
    }
  }

  /** FinishReconcile's decision, given the primary account, the gaia list in
      session order, the chrome accounts in token-service order and the two
      validation outcomes. An account that failed validation is never
      merged, not even the primary on the bad-primary path. */
  function Diff(primary: AccountId, gaia: seq<AccountId>, chrome: seq<AccountId>,
                valid: set<AccountId>, invalid: set<AccountId>): seq<Action>
  {
    if BadPrimary(primary, gaia)
    then [LogoutAllAccounts] + PrimaryMerge(primary, invalid) + MergeOthers(chrome, valid, primary)
    else MergeMissing(chrome, valid, gaia) + AddMissing(gaia, 0, valid, invalid)
  }

  /** The primary's merge after a logout-all, unless the primary failed
      validation. */
  function PrimaryMerge(primary: AccountId, invalid: set<AccountId>): (r: seq<Action>)
    ensures forall x :: x in r <==> primary !in invalid && x == Merge(primary)
  {
    if primary in invalid then [] else [Merge(primary)]
  }

  /** Normal convergence: a merge exactly for each valid chrome account the
      session lacks, an add-to-chrome exactly for each session account at its
      index that no validation outcome covers, and never a logout. */
  lemma DiffNormal(primary: AccountId, gaia: seq<AccountId>, chrome: seq<AccountId>,
                   valid: set<AccountId>, invalid: set<AccountId>)
    requires !BadPrimary(primary, gaia)
    ensures var d := Diff(primary, gaia, chrome, valid, invalid);
      && LogoutAllAccounts !in d
      && (forall a :: Merge(a) in d <==> a in chrome && a in valid && a !in gaia)
      && (forall a, i: nat :: AddToChrome(a, i) in d <==>
            0 <= i < |gaia| && gaia[i] == a && a !in valid && a !in invalid)
  {
    var m := MergeMissing(chrome, valid, gaia);
    var add := AddMissing(gaia, 0, valid, invalid);
    AddMissingOnlyAdds(gaia, 0, valid, invalid);
    assert Diff(primary, gaia, chrome, valid, invalid) == m + add;
  }

  /** Bad primary: one logout-all first, then the primary's merge unless it
      failed validation, then one merge for every other valid chrome
      account, and nothing else. */
  lemma DiffBadPrimary(primary: AccountId, gaia: seq<AccountId>, chrome: seq<AccountId>,
                       valid: set<AccountId>, invalid: set<AccountId>)
    requires BadPrimary(primary, gaia)
    ensures var d := Diff(primary, gaia, chrome, valid, invalid);
      && |d| >= 1 && d[0] == LogoutAllAccounts
      && (primary !in invalid ==> |d| >= 2 && d[1] == Merge(primary))
      && (forall k :: 1 <= k < |d| ==> d[k].Merge?)
      && (forall a :: Merge(a) in d <==>
            (a == primary && primary !in invalid) || (a in chrome && a in valid && a != primary))
  {
    var d := Diff(primary, gaia, chrome, valid, invalid);
    var p := PrimaryMerge(primary, invalid);
    var others := MergeOthers(chrome, valid, primary);
    assert d == [LogoutAllAccounts] + p + others;
    assert d[1..] == p + others;
    forall a ensures Merge(a) in d <==> Merge(a) in p || Merge(a) in others {
      assert Merge(a) in d <==> Merge(a) in d[1..];
    }
  }

  /** An account that failed validation is neither merged nor added. */
  lemma DiffIgnoresInvalid(primary: AccountId, gaia: seq<AccountId>, chrome: seq<AccountId>,
                           valid: set<AccountId>, invalid: set<AccountId>, a: AccountId)
    requires valid !! invalid && a in invalid
    ensures Merge(a) !in Diff(primary, gaia, chrome, valid, invalid)
    ensures forall i :: AddToChrome(a, i) !in Diff(primary, gaia, chrome, valid, invalid)
  {
    if BadPrimary(primary, gaia) {
      DiffBadPrimary(primary, gaia, chrome, valid, invalid);
    } else {
      DiffNormal(primary, gaia, chrome, valid, invalid);
    }
  }

  /** A converged state, with the primary first in the session and the
      session holding exactly the valid accounts, yields no action. */
  lemma {:induction false} DiffConverged(primary: AccountId, gaia: seq<AccountId>, chrome: seq<AccountId>,
                                         valid: set<AccountId>, invalid: set<AccountId>)
    requires !BadPrimary(primary, gaia)
    requires forall a :: a in valid ==> a in gaia
    requires forall i :: 0 <= i < |gaia| ==> gaia[i] in valid
    ensures Diff(primary, gaia, chrome, valid, invalid) == []
  {
    assert MergeMissing(chrome, valid, gaia) == [];
    AddMissingNone(gaia, 0, valid, invalid);
  }

  /** With distinct chrome accounts no action is issued twice. */
  lemma DiffHasNoDuplicates(primary: AccountId, gaia: seq<AccountId>, chrome: seq<AccountId>,
                            valid: set<AccountId>, invalid: set<AccountId>)
    requires forall i, j :: 0 <= i < j < |chrome| ==> chrome[i] != chrome[j]
    ensures var d := Diff(primary, gaia, chrome, valid, invalid);
      forall i, j :: 0 <= i < j < |d| ==> d[i] != d[j]
  {
    var d := Diff(primary, gaia, chrome, valid, invalid);
    if BadPrimary(primary, gaia) {
      var p := PrimaryMerge(primary, invalid);
      var others := MergeOthers(chrome, valid, primary);
      var n := 1 + |p|;
      assert d == [LogoutAllAccounts] + p + others;
      forall i, j | 0 <= i < j < |d| ensures d[i] != d[j] {
        if i >= n {
          assert d[i] == others[i - n] && d[j] == others[j - n];
        } else if i >= 1 {
          assert d[i] == Merge(primary);
          assert d[j] == others[j - n];
          assert d[j] in others;
        } else if j >= n {
          assert d[j] == others[j - n];
        }
      }
    } else {
      var m := MergeMissing(chrome, valid, gaia);
      var add := AddMissing(gaia, 0, valid, invalid);
      forall i, j | 0 <= i < j < |d| ensures d[i] != d[j] {
        if j >= |m| && i < |m| {
          assert d[i] == m[i] && d[j] == add[j - |m|];
        } else if i >= |m| {
          assert d[i] == add[i - |m|] && d[j] == add[j - |m|];
        }
      }
    }
  }

  /** Test pass: one account, already in the session, needs nothing. */
  lemma ScenarioAlreadyConnected()
    ensures Diff("user@gmail.com", ["user@gmail.com"], ["user@gmail.com"], {"user@gmail.com"}, {}) == []
  {
    DiffConverged("user@gmail.com", ["user@gmail.com"], ["user@gmail.com"], {"user@gmail.com"}, {});
  }

  /** Test pass: a second valid account the session lacks is merged. */
  lemma ScenarioMergeMissing()
    ensures Diff("user@gmail.com", ["user@gmail.com"], ["user@gmail.com", "other@gmail.com"],
                 {"user@gmail.com", "other@gmail.com"}, {}) == [Merge("other@gmail.com")]
  {
    var gaia := ["user@gmail.com"];
    var valid := {"user@gmail.com", "other@gmail.com"};
    assert "other@gmail.com" != "user@gmail.com";
    assert ["user@gmail.com", "other@gmail.com"][1..] == ["other@gmail.com"];
    assert MergeMissing(["other@gmail.com"], valid, gaia) == [Merge("other@gmail.com")];
    assert MergeMissing(["user@gmail.com", "other@gmail.com"], valid, gaia) == [Merge("other@gmail.com")];
    assert AddMissing(gaia, 1, valid, {}) == [];
    assert AddMissing(gaia, 0, valid, {}) == [];
  }

  /** Test pass: a session account chrome does not hold is added at its
      session index. */
  lemma ScenarioAddToChrome()
    ensures Diff("user@gmail.com", ["user@gmail.com", "other@gmail.com"], ["user@gmail.com"],
                 {"user@gmail.com"}, {}) == [AddToChrome("other@gmail.com", 1)]
  {
    var gaia := ["user@gmail.com", "other@gmail.com"];
    var valid := {"user@gmail.com"};
    assert "other@gmail.com" != "user@gmail.com";
    assert MergeMissing(["user@gmail.com"], valid, gaia) == [];
    assert AddMissing(gaia, 2, valid, {}) == [];
    assert AddMissing(gaia, 1, valid, {}) == [AddToChrome("other@gmail.com", 1)];
    assert AddMissing(gaia, 0, valid, {}) == AddMissing(gaia, 1, valid, {});
  }

  /** Test pass: the session's first account is not the primary. */
  lemma ScenarioBadPrimary()
    ensures Diff("user@gmail.com", ["other@gmail.com", "user@gmail.com"], ["user@gmail.com", "other@gmail.com"],
                 {"user@gmail.com", "other@gmail.com"}, {})
         == [LogoutAllAccounts, Merge("user@gmail.com"), Merge("other@gmail.com")]
  {
    assert "other@gmail.com" != "user@gmail.com";
    assert ["user@gmail.com", "other@gmail.com"][1..] == ["other@gmail.com"];
  }

  // ---------------------------------------------------------------------------
  // The reconcilor object

  /** How the validation of one chrome account ended. */
  datatype ValidationOutcome =
    | TokenRequestFailed   // no access token could be minted
    | UserInfoFailed       // the userinfo call with that token failed
    | UserInfoSucceeded

  class Reconcilor {
    /** The profile's signed-in account, "" when signed out. */
    var primaryAccount: AccountId
    var periodicReconciliationRunning: bool
    var registeredWithTokenService: bool

    var isReconcileStarted: bool
    var areGaiaAccountsSet: bool
    var gaiaAccounts: seq<AccountId>
    /** The token service's accounts when the pass started, in its order. */
    var chromeAccounts: seq<AccountId>
    var validChromeAccounts: set<AccountId>
    var invalidChromeAccounts: set<AccountId>
    /** Every action primitive called so far, oldest first. */
    var actions: seq<Action>

    /** Each validated account is a chrome account and lands in exactly one
        of the two sets. */
    predicate Valid()
      reads this
    {
      && validChromeAccounts !! invalidChromeAccounts
      && (forall a :: a in validChromeAccounts ==> a in chromeAccounts)
      && (forall a :: a in invalidChromeAccounts ==> a in chromeAccounts)
    }

    /** `account` is being validated and has no outcome yet. Validation
        runs inside a pass or on its own. */
    predicate Pending(account: AccountId)
      reads this
    {
      account in chromeAccounts
      && account !in validChromeAccounts && account !in invalidChromeAccounts
    }

    predicate AreAllRefreshTokensChecked()
      reads this
    {
      forall a :: a in chromeAccounts ==> a in validChromeAccounts || a in invalidChromeAccounts
    }

    /** A profile already signed in at creation starts periodic
        reconciliation and registers with the token service at once. */
    constructor (primary: AccountId)
      ensures primaryAccount == primary
      ensures periodicReconciliationRunning == (primary != "")
      ensures registeredWithTokenService == (primary != "")
      ensures !isReconcileStarted && !areGaiaAccountsSet
      ensures gaiaAccounts == [] && chromeAccounts == []
      ensures validChromeAccounts == {} && invalidChromeAccounts == {}
      ensures actions == []
      ensures Valid()
    {
      primaryAccount := primary;
      periodicReconciliationRunning := primary != "";
      registeredWithTokenService := primary != "";
      isReconcileStarted := false;
      areGaiaAccountsSet := false;
      gaiaAccounts := [];
      chromeAccounts := [];
      validChromeAccounts := {};
      invalidChromeAccounts := {};
      actions := [];
    }

    /** Sign-in (or re-authentication of the same account). */
    method OnSigninCompleted(account: AccountId)
      requires account != ""
      modifies this
      ensures primaryAccount == account
      ensures periodicReconciliationRunning && registeredWithTokenService
      ensures isReconcileStarted == old(isReconcileStarted) && areGaiaAccountsSet == old(areGaiaAccountsSet)
      ensures gaiaAccounts == old(gaiaAccounts) && chromeAccounts == old(chromeAccounts)
      ensures validChromeAccounts == old(validChromeAccounts) && invalidChromeAccounts == old(invalidChromeAccounts)
      ensures actions == old(actions)
    {
      primaryAccount := account;
      if !registeredWithTokenService {
        registeredWithTokenService := true;
      }
      if !periodicReconciliationRunning {
        periodicReconciliationRunning := true;
      }
    }

    /** Sign-out: stop, unregister, and abandon any pass in flight so that its
        late completions change nothing. */
    method OnSignedOut()
      modifies this
      ensures primaryAccount == ""
      ensures !periodicReconciliationRunning && !registeredWithTokenService
      ensures !isReconcileStarted
      ensures areGaiaAccountsSet == old(areGaiaAccountsSet) && gaiaAccounts == old(gaiaAccounts)
      ensures chromeAccounts == [] && validChromeAccounts == {} && invalidChromeAccounts == {}
      ensures actions == old(actions)
      ensures Valid()
      // No validation is outstanding, so no late answer is taken.
      ensures forall a :: !Pending(a)
    {
      primaryAccount := "";
      periodicReconciliationRunning := false;
      registeredWithTokenService := false;
      isReconcileStarted := false;
      chromeAccounts := [];
      validChromeAccounts := {};
      invalidChromeAccounts := {};
    }

    /** StartReconcile: a no-op while a pass is in flight; otherwise a fresh
        pass over the token service's current accounts. */
    method StartReconcile(tokenServiceAccounts: seq<AccountId>)
      modifies this
      ensures old(isReconcileStarted) ==> unchanged(this)
      ensures !old(isReconcileStarted) ==>
        && isReconcileStarted && !areGaiaAccountsSet && gaiaAccounts == []
        && chromeAccounts == tokenServiceAccounts
        && validChromeAccounts == {} && invalidChromeAccounts == {}
        && actions == old(actions)
        && primaryAccount == old(primaryAccount)
        && periodicReconciliationRunning == old(periodicReconciliationRunning)
        && registeredWithTokenService == old(registeredWithTokenService)
      ensures old(Valid()) ==> Valid()
    {
      if isReconcileStarted {
        return;
      }
      isReconcileStarted := true;
      areGaiaAccountsSet := false;
      gaiaAccounts := [];
      ValidateAccountsFromTokenService(tokenServiceAccounts);
    }

    /** Starts validating every account the token service knows, in or out
        of a pass: no token counts as checked until its answer arrives. */
    method ValidateAccountsFromTokenService(tokenServiceAccounts: seq<AccountId>)
      modifies this
      ensures chromeAccounts == tokenServiceAccounts
      ensures validChromeAccounts == {} && invalidChromeAccounts == {}
      ensures Valid()
      ensures forall a :: a in tokenServiceAccounts ==> Pending(a)
      ensures AreAllRefreshTokensChecked() <==> tokenServiceAccounts == []
      ensures isReconcileStarted == old(isReconcileStarted) && areGaiaAccountsSet == old(areGaiaAccountsSet)
      ensures gaiaAccounts == old(gaiaAccounts) && actions == old(actions)
      ensures primaryAccount == old(primaryAccount)
      ensures periodicReconciliationRunning == old(periodicReconciliationRunning)
      ensures registeredWithTokenService == old(registeredWithTokenService)
    {
      chromeAccounts := tokenServiceAccounts;
      validChromeAccounts := {};
      invalidChromeAccounts := {};
      assert tokenServiceAccounts != [] ==> tokenServiceAccounts[0] in tokenServiceAccounts;
    }

    /** Runs the diff once both halves of the pass are in, and ends the pass. */
    method FinishReconcileIfReady()
      modifies this
      ensures old(isReconcileStarted) && areGaiaAccountsSet && AreAllRefreshTokensChecked() ==>
        && actions == old(actions) + Diff(primaryAccount, gaiaAccounts, chromeAccounts,
                                          validChromeAccounts, invalidChromeAccounts)
        && !isReconcileStarted
      ensures !(old(isReconcileStarted) && areGaiaAccountsSet && AreAllRefreshTokensChecked()) ==> unchanged(this)
      ensures primaryAccount == old(primaryAccount) && areGaiaAccountsSet == old(areGaiaAccountsSet)
      ensures gaiaAccounts == old(gaiaAccounts) && chromeAccounts == old(chromeAccounts)
      ensures validChromeAccounts == old(validChromeAccounts) && invalidChromeAccounts == old(invalidChromeAccounts)
      ensures periodicReconciliationRunning == old(periodicReconciliationRunning)
      ensures registeredWithTokenService == old(registeredWithTokenService)
    {
      if isReconcileStarted && areGaiaAccountsSet && AreAllRefreshTokensChecked() {
        actions := actions + Diff(primaryAccount, gaiaAccounts, chromeAccounts,
                                  validChromeAccounts, invalidChromeAccounts);
        isReconcileStarted := false;
      }
    }

    /** The ListAccounts fetch completed; None is an HTTP or network failure.
        A failure, or a response of the wrong shape, leaves the gaia list
        empty and the gaia half of the pass unset. */
    method OnListAccountsFetched(response: Option<Value>)
      modifies this
      ensures !old(isReconcileStarted) ==> unchanged(this)
      ensures old(isReconcileStarted) ==>
        var parsed := if response.Some? then ParseListAccounts(response.value) else None;
        && gaiaAccounts == (if parsed.Some? then parsed.value else [])
        && areGaiaAccountsSet == parsed.Some?
        && (isReconcileStarted <==> !(parsed.Some? && AreAllRefreshTokensChecked()))
        && (parsed.Some? && AreAllRefreshTokensChecked() ==>
              actions == old(actions) + Diff(primaryAccount, gaiaAccounts, chromeAccounts,
                                             validChromeAccounts, invalidChromeAccounts))
        && (!(parsed.Some? && AreAllRefreshTokensChecked()) ==> actions == old(actions))
      ensures primaryAccount == old(primaryAccount) && chromeAccounts == old(chromeAccounts)
      ensures validChromeAccounts == old(validChromeAccounts) && invalidChromeAccounts == old(invalidChromeAccounts)
      ensures periodicReconciliationRunning == old(periodicReconciliationRunning)
      ensures registeredWithTokenService == old(registeredWithTokenService)
    {
      if !isReconcileStarted {
        return;
      }
      var parsed := if response.Some? then ParseListAccounts(response.value) else None;
      if parsed.Some? {
        gaiaAccounts := parsed.value;
        areGaiaAccountsSet := true;
      } else {
        gaiaAccounts := [];
        areGaiaAccountsSet := false;
      }
      FinishReconcileIfReady();
    }

    /** The validation of one chrome account completed. Results for an
        account that is not part of the pass, or that was already answered,
        are dropped. */
    method OnAccountValidated(account: AccountId, outcome: ValidationOutcome)
      requires Valid()
      modifies this
      ensures Valid()
      ensures !old(Pending(account)) ==> unchanged(this)
      ensures old(Pending(account)) ==>
        && (outcome == UserInfoSucceeded ==>
              validChromeAccounts == old(validChromeAccounts) + {account}
              && invalidChromeAccounts == old(invalidChromeAccounts))
        && (outcome != UserInfoSucceeded ==>
              invalidChromeAccounts == old(invalidChromeAccounts) + {account}
              && validChromeAccounts == old(validChromeAccounts))
        && (isReconcileStarted <==>
              old(isReconcileStarted) && !(areGaiaAccountsSet && AreAllRefreshTokensChecked()))
        && (old(isReconcileStarted) && areGaiaAccountsSet && AreAllRefreshTokensChecked() ==>
              actions == old(actions) + Diff(primaryAccount, gaiaAccounts, chromeAccounts,
                                             validChromeAccounts, invalidChromeAccounts))
        && (!(old(isReconcileStarted) && areGaiaAccountsSet && AreAllRefreshTokensChecked()) ==>
              actions == old(actions))
      /** While any account still waits for its answer, whatever the order of
          the answers so far, the pass neither ends nor acts. */
      ensures (exists b :: Pending(b)) ==>
        !AreAllRefreshTokensChecked()
        && isReconcileStarted == old(isReconcileStarted) && actions == old(actions)
      ensures primaryAccount == old(primaryAccount) && chromeAccounts == old(chromeAccounts)
      ensures gaiaAccounts == old(gaiaAccounts) && areGaiaAccountsSet == old(areGaiaAccountsSet)
      ensures periodicReconciliationRunning == old(periodicReconciliationRunning)
      ensures registeredWithTokenService == old(registeredWithTokenService)
    {
      if !Pending(account) {
        return;
      }
      if outcome == UserInfoSucceeded {
        validChromeAccounts := validChromeAccounts + {account};
      } else {
        invalidChromeAccounts := invalidChromeAccounts + {account};
      }
      FinishReconcileIfReady();
    }
  }

  /** A pass abandoned by sign-out: its late ListAccounts answer and its
      late token answer change nothing and issue no action. */
  method ScenarioLateAnswersAfterSignOut(response: Option<Value>, outcome: ValidationOutcome)
    returns (started: bool, gaiaSet: bool, validCount: nat, invalidCount: nat, actionCount: nat)
    ensures !started && !gaiaSet && validCount == 0 && invalidCount == 0 && actionCount == 0
  {
    var r := new Reconcilor("user@gmail.com");
    r.StartReconcile(["user@gmail.com"]);
    r.OnSignedOut();
    r.OnListAccountsFetched(response);
    r.OnAccountValidated("user@gmail.com", outcome);
    started := r.isReconcileStarted;
    gaiaSet := r.areGaiaAccountsSet;
    validCount := |r.validChromeAccounts|;
    invalidCount := |r.invalidChromeAccounts|;
    actionCount := |r.actions|;
  }

  /** The three validation tests: one token-service account, validated
      outside any pass, is checked once its answer arrives and lands in
      exactly one set. */
  method ScenarioValidateAccountsFromTokens(outcome: ValidationOutcome)
    returns (checkedBefore: bool, checkedAfter: bool, validCount: nat, invalidCount: nat)
    ensures !checkedBefore && checkedAfter
    ensures outcome == UserInfoSucceeded ==> validCount == 1 && invalidCount == 0
    ensures outcome != UserInfoSucceeded ==> validCount == 0 && invalidCount == 1
  {
    var r := new Reconcilor("user@gmail.com");
    r.ValidateAccountsFromTokenService(["user@gmail.com"]);
    checkedBefore := r.AreAllRefreshTokensChecked();
    r.OnAccountValidated("user@gmail.com", outcome);
    checkedAfter := r.AreAllRefreshTokensChecked();
    validCount := |r.validChromeAccounts|;
    invalidCount := |r.invalidChromeAccounts|;
  }
}
