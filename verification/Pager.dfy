/** Paging through the provider's vault accounts: follow the next-links, never the same one twice. */
module Pager {
  import opened Basics

  /** A response: not an object at all, or accounts with the path of the next page, if any. */
  datatype Page = Malformed | Page(accounts: seq<string>, next: Option<string>)

  function NextPath(page: Page): Option<string> {
    if page.Page? && page.next.Some? && page.next.value != "" then page.next else None
  }

  function AccountsOf(page: Page): seq<string> {
    if page.Page? then page.accounts else []
  }

  function Concat(pager: string -> Page, paths: seq<string>): seq<string> {
    if |paths| == 0 then [] else Concat(pager, paths[..|paths| - 1]) + AccountsOf(pager(paths[|paths| - 1]))
  }

  predicate Distinct(paths: seq<string>) {
    forall i, j :: 0 <= i < j < |paths| ==> paths[i] != paths[j]
  }

  /** Each requested path is the next-link of the one before it. */
  predicate Linked(pager: string -> Page, paths: seq<string>) {
    forall i :: 1 <= i < |paths| ==> NextPath(pager(paths[i - 1])) == Some(paths[i])
  }

  /** The chain from `first` up to its end or its first repeat. */
  predicate FullChain(pager: string -> Page, first: string, paths: seq<string>) {
    && |paths| > 0 && paths[0] == first && Distinct(paths) && Linked(pager, paths)
    && var next := NextPath(pager(paths[|paths| - 1]));
       next.None? || next.value in paths
  }

  /** A page leads on exactly when it is an object with a next-link that is not empty. */
  lemma LinkSpelled(page: Page)
    ensures NextPath(page).None? <==> page == Malformed || page.next in {None, Some("")}
    ensures forall path :: NextPath(page) == Some(path) ==> path != "" && page.Page? && page.next == Some(path)
  {}

  /** The first pages give a front of the answer. */
  lemma {:induction false} FrontPages(pager: string -> Page, paths: seq<string>, k: nat)
    requires k <= |paths|
    ensures Concat(pager, paths[..k]) <= Concat(pager, paths)
  {
    if k < |paths| {
      FrontPages(pager, paths[..|paths| - 1], k);
      assert paths[..|paths| - 1][..k] == paths[..k];
    } else {
      assert paths[..k] == paths;
    }
  }

  /** The accounts of the `k`-th page stand in the answer as a block, right after those of the pages before it; a
      malformed page contributes none. */
  lemma PagesInOrder(pager: string -> Page, paths: seq<string>, k: nat)
    requires k < |paths|
    ensures var all, front := Concat(pager, paths), Concat(pager, paths[..k]);
            match pager(paths[k])
            case Malformed => Concat(pager, paths[..k + 1]) == front <= all
            case Page(accounts, _) => Concat(pager, paths[..k + 1]) == front + accounts <= all
  {
    assert paths[..k + 1][..k] == paths[..k];
    FrontPages(pager, paths, k + 1);
  }

  /** A full chain starts at the first path, requests no path twice, follows the next-link of every page but the
      last, and stops only where that has none or links back. */
  lemma ChainSpelled(pager: string -> Page, first: string, paths: seq<string>, i: nat)
    requires FullChain(pager, first, paths) && i < |paths|
    ensures paths[0] == first && forall j :: 0 <= j < |paths| && j != i ==> paths[j] != paths[i]
    ensures i + 1 < |paths| ==> pager(paths[i]).Page? && pager(paths[i]).next == Some(paths[i + 1])
    ensures forall accounts, path :: i + 1 == |paths| && pager(paths[i]) == Page(accounts, Some(path)) ==>
              path == "" || path in paths
  {
    if i + 1 < |paths| {
      assert NextPath(pager(paths[i + 1 - 1])) == Some(paths[i + 1]);
      LinkSpelled(pager(paths[i]));
    }
  }

  /** The full chain is unique, so the result below is determined by the pager and the first path. */
  lemma {:induction false} ChainsAgree(pager: string -> Page, first: string, a: seq<string>, b: seq<string>, i: nat)
    requires FullChain(pager, first, a) && FullChain(pager, first, b) && i < |a|
    ensures i < |b| && a[i] == b[i]
  {
    if i > 0 {
      ChainsAgree(pager, first, a, b, i - 1);
      assert NextPath(pager(a[i - 1])) == Some(a[i]);
      if i == |b| {
        var j :| 0 <= j < |b| && b[j] == a[i];
        ChainsAgree(pager, first, a, b, j);
      }
    }
  }

  lemma ChainIsUnique(pager: string -> Page, first: string, a: seq<string>, b: seq<string>)
    requires FullChain(pager, first, a) && FullChain(pager, first, b)
    ensures a == b
  {
    forall i | 0 <= i < |a| ensures i < |b| && a[i] == b[i] { ChainsAgree(pager, first, a, b, i); }
    forall i | 0 <= i < |b| ensures i < |a| && b[i] == a[i] { ChainsAgree(pager, first, b, a, i); }
  }

  /** The pager knows finitely many paths and links only to those. */
  ghost predicate Closed(pager: string -> Page, known: set<string>) {
    forall p :: p in known && NextPath(pager(p)).Some? ==> NextPath(pager(p)).value in known
  }

  /** Terminates against every pager with finitely many paths; `paths` is what it requested, none of
      them twice, and the accounts are those of the pages along that chain. */
  method GetVaults(pager: string -> Page, first: string, ghost known: set<string>)
    returns (accounts: seq<string>, paths: seq<string>)
    requires first != "" && first in known && Closed(pager, known)
    ensures FullChain(pager, first, paths)
    ensures accounts == Concat(pager, paths)
  {
    accounts, paths := [], [];
    var seen: set<string> := {};
    var next := Some(first);
    while next.Some? && next.value !in seen
      invariant seen <= known && (next.Some? ==> next.value in known && next.value != "")
      invariant forall p :: p in seen <==> p in paths
      invariant Distinct(paths) && Linked(pager, paths) && accounts == Concat(pager, paths)
      invariant if |paths| == 0 then next == Some(first)
                else paths[0] == first && next == NextPath(pager(paths[|paths| - 1]))
      decreases known - seen
    {
      var path := next.value;
      seen := seen + {path};
      var page := pager(path);
      ghost var was := paths;
      paths := paths + [path];
      assert paths[..|was|] == was;
      if page.Malformed? {
        next := None;
      } else {
        accounts := accounts + page.accounts;
        next := if page.next.Some? && page.next.value != "" then page.next else None;
      }
    }
  }
}
