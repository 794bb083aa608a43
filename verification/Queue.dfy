/** The pending-balance queue: which transfers a pass picks up, and what a pass achieves. */
module Queue {
  import opened Basics
  import opened Ledger
  import opened Steps

  // ----- the queries that feed a pass -----

  predicate Waits(t: Transfer) { t.status == PendingBalance }

  /** The waiting transfers, oldest first. */
  function Waiting(ts: seq<Transfer>): (r: seq<nat>)
    ensures FifoBatch(ts, r)
    ensures forall i :: 0 <= i < |ts| && Waits(ts[i]) ==> i in r
  {
    Rows(ts, (t: Transfer) => Waits(t))
  }

  /** SQL ILIKE with `_`, `%` and the backslash escape, the pattern being the wallet's blockchain. */
  predicate ILike(text: string, pattern: string)
    decreases |text| + |pattern|
  {
    if pattern == [] then text == []
    else if pattern[0] == '%' then ILike(text, pattern[1..]) || (text != [] && ILike(text[1..], pattern))
    else if pattern[0] == '\\' && |pattern| > 1 then
      text != [] && UpperChar(text[0]) == UpperChar(pattern[1]) && ILike(text[1..], pattern[2..])
    else
      && text != [] && (pattern[0] == '_' || UpperChar(text[0]) == UpperChar(pattern[0]))
      && ILike(text[1..], pattern[1..])
  }

  /** The transfers waiting for one asset, oldest first. */
  function WaitingFor(ts: seq<Transfer>, asset: Asset): (r: seq<nat>)
    ensures FifoBatch(ts, r)
  {
    Rows(ts, (t: Transfer) => Waits(t) && ILike(t.blockchain, asset.blockchain) && t.contract == asset.contract)
  }

  /** Waiting transfers in creation order, none twice. */
  ghost predicate FifoBatch(ts: seq<Transfer>, batch: seq<nat>) {
    && (forall k :: 0 <= k < |batch| ==> batch[k] < |ts| && Waits(ts[batch[k]]))
    && (forall j, k :: 0 <= j < k < |batch| ==> batch[j] < batch[k])
  }

  predicate Plain(pattern: string) {
    forall k :: 0 <= k < |pattern| ==> pattern[k] != '%' && pattern[k] != '_' && pattern[k] != '\\'
  }

  /** On a blockchain name without wildcards ILIKE is equality ignoring case, so a pass for an asset
      picks up exactly the waiting transfers that its wallets can serve. */
  lemma {:induction false} ILikeIgnoresCase(text: string, pattern: string)
    requires Plain(pattern)
    ensures ILike(text, pattern) <==> Upper(text) == Upper(pattern)
  {
    if pattern == [] {
      assert Upper(text) == Upper(pattern) ==> |text| == 0;
    } else if text != [] {
      ILikeIgnoresCase(text[1..], pattern[1..]);
      UpperCons(text);
      UpperCons(pattern);
    } else {
      assert |Upper(text)| != |Upper(pattern)|;
    }
  }

  lemma UpperCons(s: string)
    requires s != []
    ensures Upper(s)[0] == UpperChar(s[0]) && Upper(s)[1..] == Upper(s[1..])
    ensures Upper(s) == [UpperChar(s[0])] + Upper(s[1..])
  {}

  /** A pattern without escapes matches itself in any case, wildcards included. */
  lemma {:induction false} ILikeMatchesItself(text: string, pattern: string)
    requires '\\' !in pattern && Upper(text) == Upper(pattern)
    ensures ILike(text, pattern)
  {
    if pattern != [] {
      assert |Upper(text)| == |Upper(pattern)|;
      UpperCons(text);
      UpperCons(pattern);
      ILikeMatchesItself(text[1..], pattern[1..]);
      assert pattern[0] in pattern;
    }
  }

  /** A percent sign stands for any characters. */
  lemma {:induction false} ILikePercent(text: string, rest: string)
    ensures ILike(text, ['%'] + rest) <==> exists i :: 0 <= i <= |text| && ILike(text[i..], rest)
  {
    var pattern := ['%'] + rest;
    assert pattern[1..] == rest && text[0..] == text;
    if text != [] {
      ILikePercent(text[1..], rest);
      forall i | 0 <= i < |text| ensures text[1..][i..] == text[i + 1..] {}
      if ILike(text[1..], pattern) {
        var i :| 0 <= i <= |text[1..]| && ILike(text[1..][i..], rest);
        assert ILike(text[i + 1..], rest);
      }
      if i :| 0 <= i <= |text| && ILike(text[i..], rest) {
        if i > 0 { assert ILike(text[1..][i - 1..], rest); }
      }
    }
  }

  /** An underscore stands for one character, and a backslash takes the next character as it is. */
  lemma ILikeOneCharacter(text: string, c: char, rest: string)
    ensures ILike(text, ['_'] + rest) <==> text != [] && ILike(text[1..], rest)
    ensures ILike(text, ['\\', c] + rest) <==>
            text != [] && UpperChar(text[0]) == UpperChar(c) && ILike(text[1..], rest)
  {
    assert (['_'] + rest)[1..] == rest && (['\\', c] + rest)[2..] == rest;
  }

  /** A pass without an asset picks up every transfer in `pending_balance`, in creation order, each once. */
  lemma WaitingExactly(ts: seq<Transfer>)
    ensures forall i :: 0 <= i < |ts| ==> (i in Waiting(ts) <==> ts[i].status == PendingBalance)
    ensures forall j, k :: 0 <= j < k < |Waiting(ts)| ==> Waiting(ts)[j] < Waiting(ts)[k] < |ts|
  {
    var rows := Waiting(ts);
    forall i | 0 <= i < |ts| && i in rows ensures ts[i].status == PendingBalance {
      var k :| 0 <= k < |rows| && rows[k] == i;
      assert Waits(ts[rows[k]]);
    }
    assert forall i :: 0 <= i < |ts| && ts[i].status == PendingBalance ==> Waits(ts[i]);
  }

  /** The transfers a pass for an asset picks up. They include every waiting transfer its wallets can serve
      unless the asset's blockchain has an escape, and are exactly those if it has no wildcard either. */
  lemma WaitingForExactly(s: State, a: nat, i: nat)
    requires a < |s.assets| && i < |s.transfers|
    ensures var asset, t, pickedUp := s.assets[a], s.transfers[i], i in WaitingFor(s.transfers, s.assets[a]);
            var served := t.status == PendingBalance && Upper(asset.blockchain) == Upper(t.blockchain)
                          && asset.contract == t.contract;
            && (pickedUp <==> t.status == PendingBalance && ILike(t.blockchain, asset.blockchain)
                              && t.contract == asset.contract)
            && ('\\' !in asset.blockchain && served ==> pickedUp)
            && (Plain(asset.blockchain) ==> (pickedUp <==> served))
  {
    var asset, t := s.assets[a], s.transfers[i];
    if Plain(asset.blockchain) { ILikeIgnoresCase(t.blockchain, asset.blockchain); }
    if '\\' !in asset.blockchain && Upper(asset.blockchain) == Upper(t.blockchain) {
      ILikeMatchesItself(t.blockchain, asset.blockchain);
    }
    var rows := WaitingFor(s.transfers, asset);
    if i in rows {
      var k :| 0 <= k < |rows| && rows[k] == i;
    }
  }

  // ----- one pass -----

  /** The state after one examination. */
  function Examined(s: State, i: nat, sel: Selection): State {
    if i < |s.transfers| then Commit(s, ExamineTx(i, s.transfers[i], sel)) else s
  }

  lemma ExaminedIsStep(s: State, i: nat, sel: Selection)
    ensures Examined(s, i, sel) == Apply(s, Examine(i, sel))
  {}

  /** The state after examining the batch in order, with the selection each query returned. */
  function Pass(s: State, batch: seq<nat>, sels: seq<Selection>): State
    requires |batch| == |sels|
  {
    if |batch| == 0 then s else
    var n := |batch| - 1;
    Examined(Pass(s, batch[..n], sels[..n]), batch[n], sels[n])
  }

  /** Every selection of the pass is a truthful answer in the state the pass had reached. */
  ghost predicate PassOk(s: State, batch: seq<nat>, sels: seq<Selection>)
    requires |batch| == |sels|
  {
    |batch| == 0 ||
    var n := |batch| - 1;
    && PassOk(s, batch[..n], sels[..n])
    && batch[n] < |s.transfers|
    && Selects(Pass(s, batch[..n], sels[..n]), KeyOf(s.transfers[batch[n]]), s.transfers[batch[n]].amount, sels[n])
  }

  function Processed(s: State, batch: seq<nat>, sels: seq<Selection>): (r: seq<int>)
    requires |batch| == |sels|
    requires forall k :: 0 <= k < |batch| ==> batch[k] < |s.transfers|
    ensures |r| == |batch|
    ensures forall k :: 0 <= k < |r| ==> r[k] == if sels[k].Chosen? then s.transfers[batch[k]].amount else 0
  {
    seq(|batch|, k requires 0 <= k < |batch| => if sels[k].Chosen? then s.transfers[batch[k]].amount else 0)
  }

  function Pendings(ws: seq<Wallet>): (r: seq<int>)
    ensures |r| == |ws|
    ensures forall w :: 0 <= w < |r| ==> r[w] == ws[w].pending
  {
    seq(|ws|, w requires 0 <= w < |ws| => ws[w].pending)
  }

  /** Vaults, assets, wallet rows and balances stay; available balances only shrink. */
  ghost predicate Shrunk(s: State, s': State) {
    && s'.vaults == s.vaults && s'.assets == s.assets && |s'.wallets| == |s.wallets|
    && forall w :: 0 <= w < |s.wallets| ==>
         && s'.wallets[w].vault == s.wallets[w].vault && s'.wallets[w].asset == s.wallets[w].asset
         && s'.wallets[w].balance == s.wallets[w].balance
         && s'.wallets[w].Available() <= s.wallets[w].Available()
  }

  /** The transfer is too large for every wallet that could serve it. */
  ghost predicate Unaffordable(s: State, t: Transfer) {
    forall w: nat :: Matches(s, w, KeyOf(t)) ==> t.amount > s.wallets[w].Available()
  }

  /** What the pass did to the k-th transfer of the batch, seen from the state `s'` it reached. */
  ghost predicate Treated(s: State, s': State, i: nat, sel: Selection)
    requires i < |s.transfers| && |s'.transfers| == |s.transfers|
  {
    var t := s.transfers[i];
    match sel
    case Chosen(w) => s'.transfers[i] == t.(status := Pending, wallet := Some(w)) && Matches(s', w, KeyOf(t))
    case _ => s'.transfers[i] == t.(retries := t.retries + 1) && Unaffordable(s', t)
  }

  ghost predicate PositiveBatch(s: State, batch: seq<nat>) {
    forall k :: 0 <= k < |batch| ==> batch[k] < |s.transfers| && s.transfers[batch[k]].amount > 0
  }

  lemma MatchesStays(s: State, s': State, key: AssetKey)
    requires Shrunk(s, s')
    ensures forall w: nat :: Matches(s', w, key) == Matches(s, w, key)
  {}

  lemma ExamineShrinks(s: State, i: nat, sel: Selection)
    requires i < |s.transfers| && s.transfers[i].amount > 0
    ensures var s' := Examined(s, i, sel);
            && |s'.transfers| == |s.transfers| && Shrunk(s, s')
            && (forall k :: 0 <= k < |s.transfers| && k != i ==> s'.transfers[k] == s.transfers[k])
  {}

  /** One examined transfer: it is bound and reserved on a wallet that can serve it, or it stays
      and no wallet can. */
  lemma ExamineTreats(s: State, i: nat, sel: Selection)
    requires i < |s.transfers| && Waits(s.transfers[i]) && s.transfers[i].amount > 0
    requires Selects(s, KeyOf(s.transfers[i]), s.transfers[i].amount, sel)
    ensures |Examined(s, i, sel).transfers| == |s.transfers| && Treated(s, Examined(s, i, sel), i, sel)
  {
    ExamineShrinks(s, i, sel);
    MatchesStays(s, Examined(s, i, sel), KeyOf(s.transfers[i]));
    assert sel.Chosen? ==> Sufficient(s, sel.wallet, KeyOf(s.transfers[i]), s.transfers[i].amount);
  }

  lemma ExamineAdds(s: State, i: nat, sel: Selection)
    requires i < |s.transfers| && Waits(s.transfers[i])
    requires Selects(s, KeyOf(s.transfers[i]), s.transfers[i].amount, sel)
    ensures Total(Pendings(Examined(s, i, sel).wallets))
         == Total(Pendings(s.wallets)) + (if sel.Chosen? then s.transfers[i].amount else 0)
  {
    if sel.Chosen? {
      var w, amount := sel.wallet, s.transfers[i].amount;
      assert Sufficient(s, w, KeyOf(s.transfers[i]), amount);
      assert Pendings(Examined(s, i, sel).wallets) == Pendings(s.wallets)[w := s.wallets[w].pending + amount];
      TotalUpdate(Pendings(s.wallets), w, s.wallets[w].pending + amount);
    }
  }

  lemma TreatedStays(s: State, s1: State, s2: State, i: nat, sel: Selection)
    requires i < |s.transfers| && |s1.transfers| == |s.transfers| && |s2.transfers| == |s.transfers|
    requires Treated(s, s1, i, sel) && Shrunk(s1, s2) && s2.transfers[i] == s1.transfers[i]
    ensures Treated(s, s2, i, sel)
  {}

  /** A pass leaves every transfer outside its batch alone and only lowers availability. */
  lemma {:induction false} PassShrinks(s: State, batch: seq<nat>, sels: seq<Selection>)
    requires PositiveBatch(s, batch) && |batch| == |sels|
    ensures var s' := Pass(s, batch, sels);
            && |s'.transfers| == |s.transfers| && Shrunk(s, s')
            && (forall i :: 0 <= i < |s.transfers| ==> s'.transfers[i].amount == s.transfers[i].amount)
            && (forall i :: 0 <= i < |s.transfers| && i !in batch ==> s'.transfers[i] == s.transfers[i])
  {
    if |batch| > 0 {
      var n := |batch| - 1;
      PassShrinks(s, batch[..n], sels[..n]);
      var s1 := Pass(s, batch[..n], sels[..n]);
      assert forall i :: i !in batch ==> i !in batch[..n] && i != batch[n];
      assert s1.transfers[batch[n]].amount > 0;
      ExamineShrinks(s1, batch[n], sels[n]);
      ExamineKeepsAmounts(s1, batch[n], sels[n]);
    }
  }

  /** A pass leaves every row outside its batch alone. */
  lemma {:induction false} PassKeepsRows(s: State, batch: seq<nat>, sels: seq<Selection>)
    requires |batch| == |sels|
    ensures |Pass(s, batch, sels).transfers| == |s.transfers|
    ensures forall i :: 0 <= i < |s.transfers| && i !in batch ==> Pass(s, batch, sels).transfers[i] == s.transfers[i]
  {
    if |batch| > 0 {
      var n := |batch| - 1;
      PassKeepsRows(s, batch[..n], sels[..n]);
      assert forall i :: i !in batch ==> i !in batch[..n] && i != batch[n];
      ExamineTouchesOne(Pass(s, batch[..n], sels[..n]), batch[n], sels[n]);
    }
  }

  /** The next transfer of the batch is still as it was when the pass began. */
  lemma PassReachesNext(s: State, batch: seq<nat>, sels: seq<Selection>)
    requires FifoBatch(s.transfers, batch) && |sels| < |batch|
    ensures var k := |sels|;
            var s1 := Pass(s, batch[..k], sels);
            |s1.transfers| == |s.transfers| && s1.transfers[batch[k]] == s.transfers[batch[k]]
  {
    assert batch[|sels|] !in batch[..|sels|];
    PassKeepsRows(s, batch[..|sels|], sels);
  }

  lemma PassSnoc(s: State, batch: seq<nat>, sels: seq<Selection>, sel: Selection)
    requires |sels| < |batch| && batch[|sels|] < |s.transfers|
    ensures var k, s1, t := |sels|, Pass(s, batch[..|sels|], sels), s.transfers[batch[|sels|]];
            && Pass(s, batch[..k + 1], sels + [sel]) == Examined(s1, batch[k], sel)
            && (PassOk(s, batch[..k + 1], sels + [sel]) <==>
                  PassOk(s, batch[..k], sels) && Selects(s1, KeyOf(t), t.amount, sel))
  {
    assert batch[..|sels| + 1][..|sels|] == batch[..|sels|] && (sels + [sel])[..|sels|] == sels;
  }

  lemma ExamineTouchesOne(s: State, i: nat, sel: Selection)
    ensures |Examined(s, i, sel).transfers| == |s.transfers|
    ensures forall k :: 0 <= k < |s.transfers| && k != i ==> Examined(s, i, sel).transfers[k] == s.transfers[k]
  {}

  lemma ExamineKeepsAmounts(s: State, i: nat, sel: Selection)
    ensures |Examined(s, i, sel).transfers| == |s.transfers|
    ensures forall k :: 0 <= k < |s.transfers| ==>
              Examined(s, i, sel).transfers[k].amount == s.transfers[k].amount
  {}

  /** The pass reaches its last transfer as it was when the pass began. */
  lemma PassReaches(s: State, batch: seq<nat>, sels: seq<Selection>)
    requires FifoBatch(s.transfers, batch) && PositiveBatch(s, batch) && |batch| == |sels| > 0
    ensures var n := |batch| - 1;
            var s1 := Pass(s, batch[..n], sels[..n]);
            && |s1.transfers| == |s.transfers| && s1.transfers[batch[n]] == s.transfers[batch[n]]
            && FifoBatch(s.transfers, batch[..n]) && PositiveBatch(s, batch[..n])
  {
    var n := |batch| - 1;
    assert batch[n] !in batch[..n];
    PassShrinks(s, batch[..n], sels[..n]);
  }

  lemma PassTreatsLast(s: State, batch: seq<nat>, sels: seq<Selection>)
    requires FifoBatch(s.transfers, batch) && PositiveBatch(s, batch)
    requires |batch| == |sels| > 0 && PassOk(s, batch, sels)
    ensures var n := |batch| - 1;
            |Pass(s, batch, sels).transfers| == |s.transfers| && Treated(s, Pass(s, batch, sels), batch[n], sels[n])
  {
    var n := |batch| - 1;
    PassReaches(s, batch, sels);
    ExamineTreats(Pass(s, batch[..n], sels[..n]), batch[n], sels[n]);
  }

  lemma PassKeepsEarlier(s: State, batch: seq<nat>, sels: seq<Selection>, k: nat)
    requires FifoBatch(s.transfers, batch) && PositiveBatch(s, batch) && |batch| == |sels| && k < |batch| - 1
    requires |Pass(s, batch[..|batch| - 1], sels[..|batch| - 1]).transfers| == |s.transfers|
    requires Treated(s, Pass(s, batch[..|batch| - 1], sels[..|batch| - 1]), batch[k], sels[k])
    ensures |Pass(s, batch, sels).transfers| == |s.transfers| && Treated(s, Pass(s, batch, sels), batch[k], sels[k])
  {
    var n := |batch| - 1;
    PassReaches(s, batch, sels);
    ExamineShrinks(Pass(s, batch[..n], sels[..n]), batch[n], sels[n]);
    assert batch[k] < batch[n];
    TreatedStays(s, Pass(s, batch[..n], sels[..n]), Pass(s, batch, sels), batch[k], sels[k]);
  }

  /** Queue-pass fixpoint: after a pass every examined transfer is reserved on an active HOT wallet
      for its asset, or waits with one more retry and exceeds what every such wallet has left. */
  lemma {:induction false} PassTreatsAll(s: State, batch: seq<nat>, sels: seq<Selection>, k: nat)
    requires FifoBatch(s.transfers, batch) && PositiveBatch(s, batch)
    requires |batch| == |sels| && PassOk(s, batch, sels) && k < |batch|
    ensures |Pass(s, batch, sels).transfers| == |s.transfers|
    ensures Treated(s, Pass(s, batch, sels), batch[k], sels[k])
  {
    var n := |batch| - 1;
    if k < n {
      PassReaches(s, batch, sels);
      PassTreatsAll(s, batch[..n], sels[..n], k);
      PassKeepsEarlier(s, batch, sels, k);
    } else {
      PassTreatsLast(s, batch, sels);
    }
  }

  /** Total pending grows by exactly the sum of the processed amounts. */
  lemma {:induction false} PassAddsUp(s: State, batch: seq<nat>, sels: seq<Selection>)
    requires FifoBatch(s.transfers, batch) && PositiveBatch(s, batch)
    requires |batch| == |sels| && PassOk(s, batch, sels)
    ensures Total(Pendings(Pass(s, batch, sels).wallets))
         == Total(Pendings(s.wallets)) + Total(Processed(s, batch, sels))
  {
    if |batch| > 0 {
      var n := |batch| - 1;
      PassReaches(s, batch, sels);
      PassAddsUp(s, batch[..n], sels[..n]);
      ExamineAdds(Pass(s, batch[..n], sels[..n]), batch[n], sels[n]);
      ProcessedLast(s, batch, sels);
    }
  }

  lemma ProcessedLast(s: State, batch: seq<nat>, sels: seq<Selection>)
    requires PositiveBatch(s, batch) && |batch| == |sels| > 0
    ensures var n := |batch| - 1;
            Total(Processed(s, batch, sels)) == Total(Processed(s, batch[..n], sels[..n]))
              + (if sels[n].Chosen? then s.transfers[batch[n]].amount else 0)
  {
    var n := |batch| - 1;
    assert Processed(s, batch, sels)[..n] == Processed(s, batch[..n], sels[..n]);
  }

  ghost predicate SameWallets(s: State, s': State) {
    s'.wallets == s.wallets && s'.vaults == s.vaults && s'.assets == s.assets
  }

  lemma RefusedKeepsWallets(s: State, i: nat, sel: Selection)
    requires !sel.Chosen?
    ensures SameWallets(s, Examined(s, i, sel))
  {}

  lemma StillUnaffordable(s: State, s': State, t: Transfer, sel: Selection)
    requires SameWallets(s, s') && Unaffordable(s, t) && Selects(s', KeyOf(t), t.amount, sel)
    ensures !sel.Chosen?
  {}

  /** A pass over transfers that no wallet can serve reserves nothing and moves no money. */
  lemma {:induction false} UnaffordableBatch(s: State, batch: seq<nat>, sels: seq<Selection>)
    requires |batch| == |sels| && PassOk(s, batch, sels)
    requires forall k :: 0 <= k < |batch| ==> batch[k] < |s.transfers| && Unaffordable(s, s.transfers[batch[k]])
    ensures forall k :: 0 <= k < |batch| ==> !sels[k].Chosen?
    ensures SameWallets(s, Pass(s, batch, sels))
  {
    if |batch| > 0 {
      var n := |batch| - 1;
      UnaffordableBatch(s, batch[..n], sels[..n]);
      var s1 := Pass(s, batch[..n], sels[..n]);
      StillUnaffordable(s, s1, s.transfers[batch[n]], sels[n]);
      RefusedKeepsWallets(s1, batch[n], sels[n]);
      assert forall k :: 0 <= k < n ==> sels[k] == sels[..n][k];
    }
  }

  /** A second pass over any of the leftovers of a pass, with nothing in between, reserves nothing. */
  lemma SecondPassReservesNothing(s: State, batch: seq<nat>, sels: seq<Selection>,
                                  left: seq<nat>, again: seq<Selection>)
    requires FifoBatch(s.transfers, batch) && PositiveBatch(s, batch)
    requires |batch| == |sels| && PassOk(s, batch, sels)
    requires var s' := Pass(s, batch, sels);
             && FifoBatch(s'.transfers, left) && |left| == |again| && PassOk(s', left, again)
             && (forall j :: 0 <= j < |left| ==> left[j] in batch)
    ensures Pass(Pass(s, batch, sels), left, again).wallets == Pass(s, batch, sels).wallets
    ensures forall j :: 0 <= j < |left| ==> !again[j].Chosen?
  {
    var s' := Pass(s, batch, sels);
    forall j | 0 <= j < |left| ensures Unaffordable(s', s'.transfers[left[j]]) {
      var k :| 0 <= k < |batch| && batch[k] == left[j];
      PassTreatsAll(s, batch, sels, k);
    }
    UnaffordableBatch(s', left, again);
  }

  // ----- passes in a row -----

  /** The same transfers, except that some have been retried more often. */
  ghost predicate OnlyRetries(s: State, s': State) {
    && |s'.transfers| == |s.transfers|
    && forall i :: 0 <= i < |s.transfers| ==> s'.transfers[i] == s.transfers[i].(retries := s'.transfers[i].retries)
  }

  lemma RefusedOnlyRetries(s: State, i: nat, sel: Selection)
    requires !sel.Chosen?
    ensures OnlyRetries(s, Examined(s, i, sel))
  {}

  /** A pass that reserves nothing changes nothing but retry counts. */
  lemma {:induction false} IdlePass(s: State, batch: seq<nat>, sels: seq<Selection>)
    requires |batch| == |sels| && forall k :: 0 <= k < |sels| ==> !sels[k].Chosen?
    ensures SameWallets(s, Pass(s, batch, sels)) && OnlyRetries(s, Pass(s, batch, sels))
  {
    if |batch| > 0 {
      var n := |batch| - 1;
      IdlePass(s, batch[..n], sels[..n]);
      RefusedKeepsWallets(Pass(s, batch[..n], sels[..n]), batch[n], sels[n]);
      RefusedOnlyRetries(Pass(s, batch[..n], sels[..n]), batch[n], sels[n]);
    }
  }

  lemma RefusedIsUnaffordable(s: State, s1: State, t: Transfer, sel: Selection)
    requires SameWallets(s, s1) && Selects(s1, KeyOf(t), t.amount, sel) && !sel.Chosen?
    ensures Unaffordable(s, t)
  {
    forall w: nat | Matches(s, w, KeyOf(t)) ensures t.amount > s.wallets[w].Available() {
      assert Matches(s1, w, KeyOf(t));
    }
  }

  /** A pass reserves nothing exactly when no wallet can serve any of its transfers as it begins. */
  lemma IdlePassIff(s: State, batch: seq<nat>, sels: seq<Selection>)
    requires |batch| == |sels| && PassOk(s, batch, sels)
    requires forall k :: 0 <= k < |batch| ==> batch[k] < |s.transfers|
    ensures (forall k :: 0 <= k < |sels| ==> !sels[k].Chosen?) <==>
            (forall k :: 0 <= k < |batch| ==> Unaffordable(s, s.transfers[batch[k]]))
  {
    if forall k :: 0 <= k < |sels| ==> !sels[k].Chosen? {
      forall k | 0 <= k < |batch| ensures Unaffordable(s, s.transfers[batch[k]]) {
        PassOkPrefix(s, batch, sels, k);
        IdlePass(s, batch[..k], sels[..k]);
        RefusedIsUnaffordable(s, Pass(s, batch[..k], sels[..k]), s.transfers[batch[k]], sels[k]);
      }
    } else if forall k :: 0 <= k < |batch| ==> Unaffordable(s, s.transfers[batch[k]]) {
      UnaffordableBatch(s, batch, sels);
    }
  }

  /** What is left of a pass that commits after each success and never again: its state as of the last one. */
  function KeptPass(s: State, batch: seq<nat>, sels: seq<Selection>): State
    requires |batch| == |sels|
  {
    if |batch| == 0 then s else
    var n := |batch| - 1;
    if sels[n].Chosen? then Pass(s, batch, sels) else KeptPass(s, batch[..n], sels[..n])
  }

  /** It is the pass over the examinations up to the last success. */
  lemma {:induction false} KeptPassIsPrefix(s: State, batch: seq<nat>, sels: seq<Selection>) returns (n: nat)
    requires |batch| == |sels|
    ensures n <= |batch| && KeptPass(s, batch, sels) == Pass(s, batch[..n], sels[..n])
    ensures (n == 0 || sels[n - 1].Chosen?) && forall k :: n <= k < |sels| ==> !sels[k].Chosen?
  {
    var m := |batch| - 1;
    if m < 0 || sels[m].Chosen? {
      n := |batch|;
      assert batch[..n] == batch && sels[..n] == sels;
    } else {
      n := KeptPassIsPrefix(s, batch[..m], sels[..m]);
      assert batch[..m][..n] == batch[..n] && sels[..m][..n] == sels[..n];
    }
  }

  /** The kept part of a pass, one examination later. */
  lemma KeptNext(s: State, batch: seq<nat>, sels: seq<Selection>, sel: Selection)
    requires |sels| < |batch|
    ensures var k := |sels|;
            KeptPass(s, batch[..k + 1], sels + [sel])
            == if sel.Chosen? then Pass(s, batch[..k + 1], sels + [sel]) else KeptPass(s, batch[..k], sels)
  {
    assert batch[..|sels| + 1][..|sels|] == batch[..|sels|] && (sels + [sel])[..|sels|] == sels;
  }

  lemma OnlyRetriesAlong(a: State, b: State, c: State)
    requires OnlyRetries(a, b) && OnlyRetries(b, c)
    ensures OnlyRetries(a, c)
  {}

  lemma RefusedAfter(kept: State, before: State, i: nat, sel: Selection)
    requires SameWallets(kept, before) && OnlyRetries(kept, before) && !sel.Chosen?
    ensures SameWallets(kept, Examined(before, i, sel)) && OnlyRetries(kept, Examined(before, i, sel))
  {
    RefusedKeepsWallets(before, i, sel);
    RefusedOnlyRetries(before, i, sel);
    OnlyRetriesAlong(kept, before, Examined(before, i, sel));
  }

  /** What such a pass loses of the whole one is retries, and nothing else. */
  lemma {:induction false} KeptLosesOnlyRetries(s: State, batch: seq<nat>, sels: seq<Selection>)
    requires |batch| == |sels|
    ensures SameWallets(KeptPass(s, batch, sels), Pass(s, batch, sels))
    ensures OnlyRetries(KeptPass(s, batch, sels), Pass(s, batch, sels))
  {
    if |sels| > 0 && !sels[|sels| - 1].Chosen? {
      var m := |sels| - 1;
      KeptLosesOnlyRetries(s, batch[..m], sels[..m]);
      RefusedAfter(KeptPass(s, batch[..m], sels[..m]), Pass(s, batch[..m], sels[..m]), batch[m], sels[m]);
    }
  }

  lemma KeptKeepsVaults(s: State, batch: seq<nat>, sels: seq<Selection>)
    requires |batch| == |sels|
    ensures KeptPass(s, batch, sels).vaults == Pass(s, batch, sels).vaults
    ensures KeptPass(s, batch, sels).assets == Pass(s, batch, sels).assets
  {
    KeptLosesOnlyRetries(s, batch, sels);
  }

  /** The transfers a pass with this limit examines. */
  function Head(s: State, limit: nat): seq<nat> { Limit(Waiting(s.transfers), limit) }

  /** One pass after the other, with nothing in between. */
  function Rounds(s: State, limit: nat, rounds: seq<seq<Selection>>): State {
    if |rounds| == 0 then s else
    var before, sels := Rounds(s, limit, rounds[..|rounds| - 1]), rounds[|rounds| - 1];
    if |sels| == |Head(before, limit)| then Pass(before, Head(before, limit), sels) else before
  }

  ghost predicate RoundsOk(s: State, limit: nat, rounds: seq<seq<Selection>>) {
    |rounds| == 0 ||
    var before, sels := Rounds(s, limit, rounds[..|rounds| - 1]), rounds[|rounds| - 1];
    && RoundsOk(s, limit, rounds[..|rounds| - 1])
    && |sels| == |Head(before, limit)| && PassOk(before, Head(before, limit), sels)
  }

  ghost predicate Blocked(s: State, limit: nat) {
    forall k :: 0 <= k < |Head(s, limit)| ==> Unaffordable(s, s.transfers[Head(s, limit)[k]])
  }

  lemma RetriesKeepHead(s: State, s': State, limit: nat)
    requires OnlyRetries(s, s') && SameWallets(s, s')
    ensures Head(s', limit) == Head(s, limit) && (Blocked(s', limit) <==> Blocked(s, limit))
  {
    SameRows(s'.transfers, s.transfers, (t: Transfer) => Waits(t), (t: Transfer) => Waits(t));
    assert Waiting(s'.transfers) == Waiting(s.transfers);
    forall k | 0 <= k < |Head(s, limit)|
      ensures Unaffordable(s', s'.transfers[Head(s, limit)[k]]) <==> Unaffordable(s, s.transfers[Head(s, limit)[k]])
    {
      SameUnaffordable(s, s', s.transfers[Head(s, limit)[k]], s'.transfers[Head(s, limit)[k]]);
    }
  }

  lemma SameUnaffordable(s: State, s': State, t: Transfer, t': Transfer)
    requires SameWallets(s, s') && t' == t.(retries := t'.retries)
    ensures Unaffordable(s', t') <==> Unaffordable(s, t)
  {
    assert forall w: nat :: Matches(s', w, KeyOf(t')) <==> Matches(s, w, KeyOf(t));
  }

  /** Nothing has moved: only transfers of the head have been retried, and the head is still blocked. */
  ghost predicate Stuck(s: State, s': State, limit: nat) {
    && SameWallets(s, s') && OnlyRetries(s, s') && Head(s', limit) == Head(s, limit) && Blocked(s', limit)
    && (forall i :: 0 <= i < |s.transfers| && i !in Head(s, limit) ==> s'.transfers[i] == s.transfers[i])
  }

  lemma BlockedPass(s: State, limit: nat, sels: seq<Selection>)
    requires Blocked(s, limit) && |sels| == |Head(s, limit)| && PassOk(s, Head(s, limit), sels)
    ensures Stuck(s, Pass(s, Head(s, limit), sels), limit)
    ensures forall k :: 0 <= k < |sels| ==> !sels[k].Chosen?
  {
    var batch := Head(s, limit);
    IdlePassIff(s, batch, sels);
    IdlePass(s, batch, sels);
    PassKeepsRows(s, batch, sels);
    RetriesKeepHead(s, Pass(s, batch, sels), limit);
  }

  lemma StuckAlong(a: State, b: State, c: State, limit: nat)
    requires Stuck(a, b, limit) && Stuck(b, c, limit)
    ensures Stuck(a, c, limit)
  {}

  predicate NoneChosen(rounds: seq<seq<Selection>>) {
    |rounds| == 0 || (NoneChosen(rounds[..|rounds| - 1]) && Refused(rounds[|rounds| - 1]))
  }

  predicate Refused(sels: seq<Selection>) { forall k :: 0 <= k < |sels| ==> !sels[k].Chosen? }

  lemma NextRound(s: State, before: State, limit: nat, sels: seq<Selection>)
    requires Stuck(s, before, limit) && |sels| == |Head(before, limit)| && PassOk(before, Head(before, limit), sels)
    ensures Stuck(s, Pass(before, Head(before, limit), sels), limit) && Refused(sels)
  {
    BlockedPass(before, limit, sels);
    StuckAlong(s, before, Pass(before, Head(before, limit), sels), limit);
  }

  /** Head-of-line blocking: once no wallet can serve any of the `limit` oldest waiting transfers, every further
      pass examines the same ones again, reserves nothing and never looks at the others, however small. */
  lemma {:induction false} HeadBlocksRest(s: State, limit: nat, rounds: seq<seq<Selection>>)
    requires Blocked(s, limit) && RoundsOk(s, limit, rounds)
    ensures Stuck(s, Rounds(s, limit, rounds), limit) && NoneChosen(rounds)
  {
    if |rounds| > 0 {
      var n := |rounds| - 1;
      HeadBlocksRest(s, limit, rounds[..n]);
      NextRound(s, Rounds(s, limit, rounds[..n]), limit, rounds[n]);
    }
  }

  /** Ten units in the one hot wallet; the older transfer wants twenty, the younger five. */
  function BigBeforeSmall(): State {
    State([Vault(Hot, true, true)], [Asset("TRON", None)], [Wallet(0, 0, 10, 0)],
          [Transfer("big", 20, "TRON", None, PendingBalance, None, None, 0),
           Transfer("small", 5, "TRON", None, PendingBalance, None, None, 0)], {})
  }

  lemma BigIsHead()
    ensures Head(BigBeforeSmall(), 1) == [0] && Blocked(BigBeforeSmall(), 1)
  {
    var waiting := Waiting(BigBeforeSmall().transfers);
    assert 0 in waiting && 1 in waiting;
    assert waiting[0] == 0;
  }

  /** A transfer outside a blocked head is never looked at. */
  lemma OutsideHeadStays(s: State, limit: nat, rounds: seq<seq<Selection>>, i: nat)
    requires Blocked(s, limit) && RoundsOk(s, limit, rounds) && i < |s.transfers| && i !in Head(s, limit)
    ensures var s' := Rounds(s, limit, rounds); i < |s'.transfers| && s'.transfers[i] == s.transfers[i]
  {
    HeadBlocksRest(s, limit, rounds);
  }

  lemma SmallIsAffordable()
    ensures var s := BigBeforeSmall(); Sufficient(s, 0, KeyOf(s.transfers[1]), s.transfers[1].amount)
  {}

  /** With a limit of one the younger transfer, which the wallet could serve, waits for ever. */
  lemma SmallWaitsForBig(rounds: seq<seq<Selection>>)
    requires RoundsOk(BigBeforeSmall(), 1, rounds)
    ensures var s, s' := BigBeforeSmall(), Rounds(BigBeforeSmall(), 1, rounds);
            && Sufficient(s, 0, KeyOf(s.transfers[1]), s.transfers[1].amount)
            && 1 < |s'.transfers| && s'.transfers[1] == s.transfers[1]
  {
    BigIsHead();
    SmallIsAffordable();
    OutsideHeadStays(BigBeforeSmall(), 1, rounds, 1);
  }

  predicate SameKey(t: Transfer, u: Transfer) {
    Upper(t.blockchain) == Upper(u.blockchain) && t.contract == u.contract
  }

  lemma {:induction false} PassOkPrefix(s: State, batch: seq<nat>, sels: seq<Selection>, n: nat)
    requires |batch| == |sels| && PassOk(s, batch, sels) && n <= |batch|
    ensures PassOk(s, batch[..n], sels[..n])
    ensures n < |batch| ==>
              && batch[n] < |s.transfers|
              && var t := s.transfers[batch[n]]; Selects(Pass(s, batch[..n], sels[..n]), KeyOf(t), t.amount, sels[n])
  {
    var m := |batch| - 1;
    if n < m {
      PassOkPrefix(s, batch[..m], sels[..m], n);
      assert batch[..m][..n] == batch[..n] && sels[..m][..n] == sels[..n];
    } else if n > m {
      assert batch[..n] == batch && sels[..n] == sels;
    }
  }

  /** FIFO dominance: if a pass leaves an earlier transfer waiting and reserves a later one for the
      same asset, the earlier amount is strictly larger. */
  lemma FifoDominance(s: State, batch: seq<nat>, sels: seq<Selection>, j: nat, k: nat)
    requires FifoBatch(s.transfers, batch) && PositiveBatch(s, batch)
    requires |batch| == |sels| && PassOk(s, batch, sels)
    requires j < k < |batch| && SameKey(s.transfers[batch[j]], s.transfers[batch[k]])
    requires !sels[j].Chosen? && sels[k].Chosen?
    ensures s.transfers[batch[j]].amount > s.transfers[batch[k]].amount
  {
    PassOkPrefix(s, batch, sels, k);
    PassTreatsAll(s, batch[..k], sels[..k], j);
    var s1 := Pass(s, batch[..k], sels[..k]);
    var w := sels[k].wallet;
    assert Sufficient(s1, w, KeyOf(s.transfers[batch[k]]), s.transfers[batch[k]].amount);
    assert Matches(s1, w, KeyOf(s.transfers[batch[j]]));
  }

  // ----- the grouped view -----

  /** The rows of one key among the first `n`, in order. */
  function OfKey(ts: seq<Transfer>, rows: seq<nat>, key: AssetKey): (r: seq<nat>)
    requires forall k :: 0 <= k < |rows| ==> rows[k] < |ts|
    ensures r != [] <==> exists k :: 0 <= k < |rows| && KeyOf(ts[rows[k]]) == key
  {
    if |rows| == 0 then [] else
    var n := |rows| - 1;
    var front := OfKey(ts, rows[..n], key);
    assert forall k :: 0 <= k < n ==> rows[..n][k] == rows[k];
    if KeyOf(ts[rows[n]]) == key then front + [rows[n]] else front
  }

  lemma OfKeyStep(ts: seq<Transfer>, rows: seq<nat>, n: nat, key: AssetKey)
    requires n < |rows| && forall k :: 0 <= k < |rows| ==> rows[k] < |ts|
    ensures OfKey(ts, rows[..n + 1], key)
         == OfKey(ts, rows[..n], key) + (if KeyOf(ts[rows[n]]) == key then [rows[n]] else [])
  {
    assert rows[..n + 1][..n] == rows[..n];
  }

  /** The front of the key's queue. */
  function Group(ts: seq<Transfer>, rows: seq<nat>, key: AssetKey, limit: int): seq<nat>
    requires forall k :: 0 <= k < |rows| ==> rows[k] < |ts|
  {
    Limit(OfKey(ts, rows, key), if limit < 0 then 0 else limit)
  }

  /** The group of one key. */
  ghost predicate GroupedAt(ts: seq<Transfer>, rows: seq<nat>, limit: int, g: map<AssetKey, seq<nat>>, key: AssetKey)
    requires forall k :: 0 <= k < |rows| ==> rows[k] < |ts|
  {
    && (key in g <==> OfKey(ts, rows, key) != [])
    && (key in g ==> g[key] == Group(ts, rows, key, limit))
  }

  ghost predicate Grouped(ts: seq<Transfer>, rows: seq<nat>, limit: int, g: map<AssetKey, seq<nat>>)
    requires forall k :: 0 <= k < |rows| ==> rows[k] < |ts|
  {
    && (forall key :: key in g <==> OfKey(ts, rows, key) != [])
    && (forall key :: key in g ==> g[key] == Group(ts, rows, key, limit))
  }

  lemma GroupNext(ts: seq<Transfer>, rows: seq<nat>, n: nat, key: AssetKey, limit: int)
    requires n < |rows| && forall k :: 0 <= k < |rows| ==> rows[k] < |ts|
    ensures var group := Group(ts, rows[..n], key, limit);
            && (OfKey(ts, rows[..n + 1], key) != [] <==> OfKey(ts, rows[..n], key) != [] || KeyOf(ts[rows[n]]) == key)
            && Group(ts, rows[..n + 1], key, limit)
               == if KeyOf(ts[rows[n]]) == key && |group| < limit then group + [rows[n]] else group
  {
    OfKeyStep(ts, rows, n, key);
  }

  lemma GroupedNext(ts: seq<Transfer>, rows: seq<nat>, n: nat, limit: int, g: map<AssetKey, seq<nat>>, key: AssetKey)
    requires n < |rows| && forall k :: 0 <= k < |rows| ==> rows[k] < |ts|
    requires GroupedAt(ts, rows[..n], limit, g, key)
    ensures var mine := KeyOf(ts[rows[n]]);
            var group := if mine in g then g[mine] else [];
            GroupedAt(ts, rows[..n + 1], limit, g[mine := if |group| < limit then group + [rows[n]] else group], key)
  {
    GroupNext(ts, rows, n, key, limit);
  }

  lemma GroupedStep(ts: seq<Transfer>, rows: seq<nat>, n: nat, limit: int, g: map<AssetKey, seq<nat>>)
    requires n < |rows| && forall k :: 0 <= k < |rows| ==> rows[k] < |ts|
    requires Grouped(ts, rows[..n], limit, g)
    ensures var key := KeyOf(ts[rows[n]]);
            var group := if key in g then g[key] else [];
            Grouped(ts, rows[..n + 1], limit, g[key := if |group| < limit then group + [rows[n]] else group])
  {
    var mine := KeyOf(ts[rows[n]]);
    var group := if mine in g then g[mine] else [];
    var after := g[mine := if |group| < limit then group + [rows[n]] else group];
    forall key ensures key in after <==> OfKey(ts, rows[..n + 1], key) != []
               ensures key in after ==> after[key] == Group(ts, rows[..n + 1], key, limit)
    {
      GroupedNext(ts, rows, n, limit, g, key);
    }
  }

  /** The rows of one key are those given that have it. */
  lemma {:induction false} OfKeyHas(ts: seq<Transfer>, rows: seq<nat>, key: AssetKey, i: nat)
    requires forall k :: 0 <= k < |rows| ==> rows[k] < |ts|
    ensures i in OfKey(ts, rows, key) <==>
            i in rows && ts[i].blockchain == key.blockchain && ts[i].contract == key.contract
  {
    if rows != [] {
      var n := |rows| - 1;
      OfKeyHas(ts, rows[..n], key, i);
      assert rows == rows[..n] + [rows[n]];
    }
  }

  ghost predicate Ascending(rows: seq<nat>) { forall j, k :: 0 <= j < k < |rows| ==> rows[j] < rows[k] }

  lemma AscendingFront(rows: seq<nat>)
    requires rows != [] && Ascending(rows)
    ensures Ascending(rows[..|rows| - 1]) && forall k :: 0 <= k < |rows| - 1 ==> rows[k] < rows[|rows| - 1]
  {}

  lemma AscendingAppend(front: seq<nat>, last: nat)
    requires Ascending(front) && forall k :: 0 <= k < |front| ==> front[k] < last
    ensures Ascending(front + [last])
  {}

  /** They keep the order given. */
  lemma {:induction false} OfKeyAscends(ts: seq<Transfer>, rows: seq<nat>, key: AssetKey)
    requires forall k :: 0 <= k < |rows| ==> rows[k] < |ts|
    requires Ascending(rows)
    ensures Ascending(OfKey(ts, rows, key))
  {
    if rows != [] {
      var n := |rows| - 1;
      var front := OfKey(ts, rows[..n], key);
      AscendingFront(rows);
      OfKeyAscends(ts, rows[..n], key);
      forall k | 0 <= k < |front| ensures front[k] < rows[n] {
        assert front[k] in front;
        OfKeyHas(ts, rows[..n], key, front[k]);
      }
      AscendingAppend(front, rows[n]);
    }
  }

  /** Transfer `i` waits for this key. */
  ghost predicate WaitsFor(ts: seq<Transfer>, key: AssetKey, i: nat) {
    && i < |ts| && ts[i].status == PendingBalance
    && ts[i].blockchain == key.blockchain && ts[i].contract == key.contract
  }

  lemma QueueOf(ts: seq<Transfer>, key: AssetKey)
    ensures Ascending(OfKey(ts, Waiting(ts), key))
    ensures forall i: nat :: i in OfKey(ts, Waiting(ts), key) <==> WaitsFor(ts, key, i)
  {
    WaitingExactly(ts);
    OfKeyAscends(ts, Waiting(ts), key);
    forall i: nat ensures i in OfKey(ts, Waiting(ts), key) <==> WaitsFor(ts, key, i) {
      OfKeyHas(ts, Waiting(ts), key, i);
      if i in Waiting(ts) { var k :| 0 <= k < |Waiting(ts)| && Waiting(ts)[k] == i; }
    }
  }

  /** A key is there if and only if a transfer waits for it. */
  lemma GroupedKeys(ts: seq<Transfer>, limit: int, g: map<AssetKey, seq<nat>>, key: AssetKey)
    requires Grouped(ts, Waiting(ts), limit, g)
    ensures key in g <==> exists i: nat :: WaitsFor(ts, key, i)
  {
    var all := OfKey(ts, Waiting(ts), key);
    QueueOf(ts, key);
    if all != [] { assert all[0] in all && WaitsFor(ts, key, all[0]); }
    if i: nat :| WaitsFor(ts, key, i) { assert i in all; }
  }

  lemma FrontOf(all: seq<nat>, limit: nat, i: nat)
    requires Ascending(all)
    ensures var r := Limit(all, limit);
            && |r| <= limit && Ascending(r)
            && (i in r ==> i in all)
            && (i in all && i !in r ==> |r| == limit && forall k :: 0 <= k < |r| ==> r[k] < i)
  {
    var r := Limit(all, limit);
    assert r == all[..|r|] && forall k :: 0 <= k < |r| ==> all[k] in r;
    if i in all && i !in r {
      var k :| 0 <= k < |all| && all[k] == i;
      assert |r| <= k;
    }
  }

  /** Its group holds transfers that wait for it, oldest first and at most `limit`; one that is left out is younger
      than all of a full group. */
  lemma GroupedExact(ts: seq<Transfer>, limit: int, g: map<AssetKey, seq<nat>>, key: AssetKey, i: nat)
    requires Grouped(ts, Waiting(ts), limit, g) && key in g
    ensures var group := g[key];
            && (group != [] ==> |group| <= limit)
            && Ascending(group)
            && (i in group ==> WaitsFor(ts, key, i))
            && (WaitsFor(ts, key, i) && i !in group ==>
                  |group| >= limit && forall k :: 0 <= k < |group| ==> group[k] < i)
  {
    QueueOf(ts, key);
    FrontOf(OfKey(ts, Waiting(ts), key), if limit < 0 then 0 else limit, i);
    assert g[key] == Group(ts, Waiting(ts), key, limit);
  }

  /** Groups the given rows by asset key, each group cut at `limitPerGroup`. */
  method GroupRows(ts: seq<Transfer>, rows: seq<nat>, limitPerGroup: int) returns (grouped: map<AssetKey, seq<nat>>)
    requires forall k :: 0 <= k < |rows| ==> rows[k] < |ts|
    ensures Grouped(ts, rows, limitPerGroup, grouped)
  {
    grouped := map[];
    for n := 0 to |rows|
      invariant Grouped(ts, rows[..n], limitPerGroup, grouped)
    {
      ghost var was := grouped;
      var key := KeyOf(ts[rows[n]]);
      if key !in grouped {
        grouped := grouped[key := []];
      }
      if |grouped[key]| < limitPerGroup {
        grouped := grouped[key := grouped[key] + [rows[n]]];
      }
      ghost var group := if key in was then was[key] else [];
      assert grouped == was[key := if |group| < limitPerGroup then group + [rows[n]] else group];
      GroupedStep(ts, rows, n, limitPerGroup, was);
    }
    assert rows[..|rows|] == rows;
  }

  /** The waiting transfers grouped by asset key, oldest first: the keys are exactly the keys
      present and each group is the front of that key's queue. */
  method GroupWaiting(ts: seq<Transfer>, limitPerGroup: int) returns (grouped: map<AssetKey, seq<nat>>)
    ensures Grouped(ts, Waiting(ts), limitPerGroup, grouped)
  {
    grouped := GroupRows(ts, Waiting(ts), limitPerGroup);
  }
}
