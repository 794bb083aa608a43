/** The two treasury reports: balances per vault type, and balances per asset and type. */
module Treasury {
  import opened Basics
  import opened Ledger

  datatype AssetName = AssetName(blockchain: string, currency: string, network: string)

  /** A wallet as the reports see it. The asset link can be empty. */
  datatype Holding = Holding(asset: Option<AssetName>, balance: int)

  datatype Account = Account(kind: VaultKind, active: bool, target: Option<nat>, holdings: seq<Holding>)

  predicate Reported(kind: VaultKind) { kind.Hot? || kind.Warm? || kind.Cold? }

  predicate Listed(a: Account) { a.active && Reported(a.kind) }

  // ----- one line per wallet of a listed vault -----

  datatype Line = Line(kind: VaultKind, asset: Option<AssetName>, balance: int)

  function LinesOf(a: Account): seq<Line> {
    seq(|a.holdings|, i requires 0 <= i < |a.holdings| => Line(a.kind, a.holdings[i].asset, a.holdings[i].balance))
  }

  function Lines(accounts: seq<Account>): seq<Line> {
    if |accounts| == 0 then [] else
      var a := accounts[|accounts| - 1];
      Lines(accounts[..|accounts| - 1]) + if Listed(a) then LinesOf(a) else []
  }

  function Sum(lines: seq<Line>, p: Line -> bool): int {
    if |lines| == 0 then 0 else
      var last := lines[|lines| - 1];
      Sum(lines[..|lines| - 1], p) + if p(last) then last.balance else 0
  }

  function OfKind(kind: VaultKind): Line -> bool { (l: Line) => l.kind == kind }

  function OfKey(key: string, kind: VaultKind): Line -> bool { (l: Line) => l.kind == kind && HasKey(l, key) }

  function Unlinked(kind: VaultKind): Line -> bool { (l: Line) => l.kind == kind && l.asset.None? }

  function KeyOf(a: AssetName): string { a.blockchain + "/" + a.currency + "/" + a.network }

  predicate HasKey(l: Line, key: string) { l.asset.Some? && KeyOf(l.asset.value) == key }

  lemma {:induction false} SumAppend(a: seq<Line>, b: seq<Line>, p: Line -> bool)
    ensures Sum(a + b, p) == Sum(a, p) + Sum(b, p)
  {
    if |b| == 0 {
      assert a + b == a;
    } else {
      SumAppend(a, b[..|b| - 1], p);
      assert (a + b)[..|a + b| - 1] == a + b[..|b| - 1];
    }
  }

  // ----- the per-asset table -----

  datatype Row = Row(asset: AssetName, hot: int, warm: int, cold: int) {
    function Key(): string { KeyOf(asset) }

    function Column(kind: VaultKind): int {
      match kind
      case Hot => hot
      case Warm => warm
      case Cold => cold
      case _ => 0
    }

    function Plus(l: Line): Row {
      match l.kind
      case Hot => this.(hot := hot + l.balance)
      case Warm => this.(warm := warm + l.balance)
      case Cold => this.(cold := cold + l.balance)
      case _ => this
    }

    function Across(): int { hot + warm + cold }
  }

  function Place(rows: seq<Row>, key: string): (i: nat)
    ensures i <= |rows|
    ensures i < |rows| ==> rows[i].Key() == key
    ensures forall j :: 0 <= j < i ==> rows[j].Key() != key
  {
    if |rows| == 0 then 0 else
      var i := Place(rows[..|rows| - 1], key);
      if i < |rows| - 1 then i else if rows[i].Key() == key then i else i + 1
  }

  function Widened(rows: seq<Row>, a: AssetName): seq<Row> {
    if Place(rows, KeyOf(a)) == |rows| then rows + [Row(a, 0, 0, 0)] else rows
  }

  function Tally(rows: seq<Row>, l: Line): seq<Row> {
    if l.asset.None? then rows else
      var i, wide := Place(rows, KeyOf(l.asset.value)), Widened(rows, l.asset.value);
      wide[i := wide[i].Plus(l)]
  }

  function Table(lines: seq<Line>): seq<Row> {
    if |lines| == 0 then [] else Tally(Table(lines[..|lines| - 1]), lines[|lines| - 1])
  }

  predicate OneRowPerKey(rows: seq<Row>) {
    forall i, j :: 0 <= i < j < |rows| ==> rows[i].Key() != rows[j].Key()
  }

  predicate Mentions(lines: seq<Line>, key: string) { exists i :: 0 <= i < |lines| && HasKey(lines[i], key) }

  predicate HasRow(rows: seq<Row>, key: string) { exists i :: 0 <= i < |rows| && rows[i].Key() == key }

  lemma {:induction false} UnmentionedSumsToZero(lines: seq<Line>, key: string, kind: VaultKind)
    requires !Mentions(lines, key)
    ensures Sum(lines, OfKey(key, kind)) == 0
  {
    if |lines| > 0 {
      var n := |lines| - 1;
      assert !HasKey(lines[n], key);
      assert forall i :: 0 <= i < n ==> lines[..n][i] == lines[i];
      UnmentionedSumsToZero(lines[..n], key, kind);
    }
  }

  lemma TallyCell(rows: seq<Row>, l: Line, i: nat, kind: VaultKind)
    requires OneRowPerKey(rows) && Reported(kind) && i < |Tally(rows, l)|
    ensures var row := Tally(rows, l)[i];
            && (if i < |rows| then row.Key() == rows[i].Key() else !HasRow(rows, row.Key()))
            && row.Column(kind) == (if i < |rows| then rows[i].Column(kind) else 0)
                                   + if HasKey(l, row.Key()) && l.kind == kind then l.balance else 0
  {
    TallyRows(rows, l);
  }

  lemma SumNext(lines: seq<Line>, key: string, kind: VaultKind)
    requires |lines| > 0
    ensures var l := lines[|lines| - 1];
            && Sum(lines, OfKey(key, kind))
               == Sum(lines[..|lines| - 1], OfKey(key, kind))
                  + if HasKey(l, key) && l.kind == kind then l.balance else 0
  {}

  /** One more line, on a row and its column. */
  lemma ColumnNext(lines: seq<Line>, before: seq<Row>, i: nat, kind: VaultKind)
    requires |lines| > 0 && OneRowPerKey(before) && Reported(kind) && i < |Tally(before, lines[|lines| - 1])|
    requires forall key :: HasRow(before, key) <==> Mentions(lines[..|lines| - 1], key)
    requires i < |before| ==> before[i].Column(kind) == Sum(lines[..|lines| - 1], OfKey(before[i].Key(), kind))
    ensures var row := Tally(before, lines[|lines| - 1])[i];
            row.Column(kind) == Sum(lines, OfKey(row.Key(), kind))
  {
    var n := |lines| - 1;
    var key := Tally(before, lines[n])[i].Key();
    TallyCell(before, lines[n], i, kind);
    SumNext(lines, key, kind);
    if i >= |before| { UnmentionedSumsToZero(lines[..n], key, kind); }
  }

  /** The table has exactly one row for every key that a line mentions, and each of its columns is the
      sum of the lines with that key and type. */
  lemma {:induction false} TableIsExact(lines: seq<Line>)
    ensures var rows := Table(lines);
            && OneRowPerKey(rows)
            && (forall key :: HasRow(rows, key) <==> Mentions(lines, key))
            && (forall i, kind :: 0 <= i < |rows| && Reported(kind) ==>
                  rows[i].Column(kind) == Sum(lines, OfKey(rows[i].Key(), kind)))
  {
    if |lines| > 0 {
      var n := |lines| - 1;
      TableIsExact(lines[..n]);
      var before, after := Table(lines[..n]), Table(lines);
      TallyRows(before, lines[n]);
      forall key ensures HasRow(after, key) <==> Mentions(lines, key) {
        MentionsSnoc(lines, key);
        TallyKeys(before, lines[n], key);
      }
      forall i, kind | 0 <= i < |after| && Reported(kind)
        ensures after[i].Column(kind) == Sum(lines, OfKey(after[i].Key(), kind))
      {
        ColumnNext(lines, before, i, kind);
      }
    }
  }

  lemma MentionsSnoc(lines: seq<Line>, key: string)
    requires |lines| > 0
    ensures Mentions(lines, key) <==> Mentions(lines[..|lines| - 1], key) || HasKey(lines[|lines| - 1], key)
  {}

  /** What one line does to the rows. */
  lemma TallyRows(rows: seq<Row>, l: Line)
    requires OneRowPerKey(rows)
    ensures var after := Tally(rows, l);
            && OneRowPerKey(after)
            && |rows| <= |after|
            && (forall i :: 0 <= i < |rows| ==> after[i].asset == rows[i].asset)
            && (forall i, kind :: 0 <= i < |after| && Reported(kind) ==>
                  after[i].Column(kind) == (if i < |rows| then rows[i].Column(kind) else 0)
                                           + if HasKey(l, after[i].Key()) && l.kind == kind then l.balance else 0)
            && (forall i :: |rows| <= i < |after| ==> i == |rows| && !HasRow(rows, after[i].Key()))
  {
    if l.asset.Some? {
      var key := KeyOf(l.asset.value);
      var i, after := Place(rows, key), Tally(rows, l);
      assert after[i].Key() == key;
    }
  }

  lemma TallyKeys(rows: seq<Row>, l: Line, key: string)
    ensures HasRow(Tally(rows, l), key) <==> HasRow(rows, key) || HasKey(l, key)
  {
    if l.asset.Some? {
      var i, after := Place(rows, KeyOf(l.asset.value)), Tally(rows, l);
      assert after[i].Key() == KeyOf(l.asset.value);
      assert forall j :: 0 <= j < |rows| ==> after[j].Key() == rows[j].Key();
      if HasRow(rows, key) {
        var j :| 0 <= j < |rows| && rows[j].Key() == key;
        assert after[j].Key() == key;
      }
    }
  }

  // ----- the columns add up -----

  function ColumnTotal(rows: seq<Row>, kind: VaultKind): int {
    if |rows| == 0 then 0 else ColumnTotal(rows[..|rows| - 1], kind) + rows[|rows| - 1].Column(kind)
  }

  function AcrossTotal(rows: seq<Row>): int {
    if |rows| == 0 then 0 else AcrossTotal(rows[..|rows| - 1]) + rows[|rows| - 1].Across()
  }

  lemma {:induction false} ColumnUpdate(rows: seq<Row>, i: nat, row: Row, kind: VaultKind)
    requires i < |rows|
    ensures ColumnTotal(rows[i := row], kind) == ColumnTotal(rows, kind) - rows[i].Column(kind) + row.Column(kind)
  {
    var n := |rows| - 1;
    if i < n {
      ColumnUpdate(rows[..n], i, row, kind);
      assert rows[i := row][..n] == rows[..n][i := row];
    } else {
      assert rows[i := row][..n] == rows[..n];
    }
  }

  lemma WidenedColumn(rows: seq<Row>, a: AssetName, kind: VaultKind)
    ensures ColumnTotal(Widened(rows, a), kind) == ColumnTotal(rows, kind)
  {
    if Place(rows, KeyOf(a)) == |rows| { assert Widened(rows, a)[..|rows|] == rows; }
  }

  lemma TallyColumn(rows: seq<Row>, l: Line, kind: VaultKind)
    requires Reported(kind)
    ensures ColumnTotal(Tally(rows, l), kind)
         == ColumnTotal(rows, kind) + if l.asset.Some? && l.kind == kind then l.balance else 0
  {
    if l.asset.Some? {
      var i, wide := Place(rows, KeyOf(l.asset.value)), Widened(rows, l.asset.value);
      WidenedColumn(rows, l.asset.value, kind);
      ColumnUpdate(wide, i, wide[i].Plus(l), kind);
    }
  }

  /** A column of the table and the wallets without an asset make up everything of that type. */
  lemma {:induction false} ColumnsAddUp(lines: seq<Line>, kind: VaultKind)
    requires Reported(kind)
    ensures ColumnTotal(Table(lines), kind) + Sum(lines, Unlinked(kind)) == Sum(lines, OfKind(kind))
  {
    if |lines| > 0 {
      var n := |lines| - 1;
      ColumnsAddUp(lines[..n], kind);
      TallyColumn(Table(lines[..n]), lines[n], kind);
    }
  }

  lemma {:induction false} RowsAddUp(rows: seq<Row>)
    ensures AcrossTotal(rows) == ColumnTotal(rows, Hot) + ColumnTotal(rows, Warm) + ColumnTotal(rows, Cold)
  {
    if |rows| > 0 { RowsAddUp(rows[..|rows| - 1]); }
  }

  // ----- the per-type report -----

  function Funds(holdings: seq<Holding>): int {
    if |holdings| == 0 then 0 else Funds(holdings[..|holdings| - 1]) + holdings[|holdings| - 1].balance
  }

  function Count(accounts: seq<Account>, kind: VaultKind): nat {
    if |accounts| == 0 then 0 else
      var a := accounts[|accounts| - 1];
      Count(accounts[..|accounts| - 1], kind) + if a.active && a.kind == kind then 1 else 0
  }

  function Balance(accounts: seq<Account>, kind: VaultKind): int {
    if |accounts| == 0 then 0 else
      var a := accounts[|accounts| - 1];
      Balance(accounts[..|accounts| - 1], kind) + if a.active && a.kind == kind then Funds(a.holdings) else 0
  }

  /** The last target set on an active vault of the type. Zero counts as not set. */
  function Target(accounts: seq<Account>, kind: VaultKind): nat {
    if |accounts| == 0 then 0 else
      var a := accounts[|accounts| - 1];
      if a.active && a.kind == kind && a.target.Some? && a.target.value != 0 then a.target.value
      else Target(accounts[..|accounts| - 1], kind)
  }

  function GrandTotal(accounts: seq<Account>): int {
    Balance(accounts, Hot) + Balance(accounts, Warm) + Balance(accounts, Cold)
  }

  datatype Health = Healthy | Warning | Critical

  datatype Summary = Summary(count: nat, balance: int, target: nat, percent: real, health: Health)

  datatype Overview = Overview(total: int, hot: Option<Summary>, warm: Option<Summary>, cold: Option<Summary>,
                               health: Health)

  function Percent(balance: int, total: int): real {
    if total > 0 then balance as real / total as real * 100.0 else 0.0
  }

  function Distance(a: real, b: real): real { if a < b then b - a else a - b }

  function HealthOf(percent: real, target: nat): Health {
    if target == 0 then Healthy
    else if Distance(percent, target as real) > 20.0 then Critical
    else if Distance(percent, target as real) > 10.0 then Warning
    else Healthy
  }

  function SummaryOf(accounts: seq<Account>, kind: VaultKind): Option<Summary> {
    if Count(accounts, kind) == 0 then None else
      var balance, target := Balance(accounts, kind), Target(accounts, kind);
      var percent := Percent(balance, GrandTotal(accounts));
      Some(Summary(Count(accounts, kind), balance, target, percent, HealthOf(percent, target)))
  }

  function PercentOf(s: Option<Summary>): real { if s.Some? then s.value.percent else 0.0 }

  predicate Has(s: Option<Summary>, h: Health) { s.Some? && s.value.health == h }

  lemma {:induction false} EmptyTypeHoldsNothing(accounts: seq<Account>, kind: VaultKind)
    requires Count(accounts, kind) == 0
    ensures Balance(accounts, kind) == 0
  {
    if |accounts| > 0 { EmptyTypeHoldsNothing(accounts[..|accounts| - 1], kind); }
  }

  lemma SharesOfWhole(a: real, b: real, c: real, t: real)
    requires t > 0.0 && a + b + c == t
    ensures a / t * 100.0 + b / t * 100.0 + c / t * 100.0 == 100.0
  {}

  /** The reported percentages are a partition of the whole. */
  lemma PercentagesSumToHundred(accounts: seq<Account>)
    requires GrandTotal(accounts) > 0
    ensures PercentOf(SummaryOf(accounts, Hot)) + PercentOf(SummaryOf(accounts, Warm))
            + PercentOf(SummaryOf(accounts, Cold)) == 100.0
  {
    forall kind | Count(accounts, kind) == 0 ensures Balance(accounts, kind) == 0 {
      EmptyTypeHoldsNothing(accounts, kind);
    }
    var t := GrandTotal(accounts);
    var h, w, c := Balance(accounts, Hot), Balance(accounts, Warm), Balance(accounts, Cold);
    SharesOfWhole(h as real, w as real, c as real, t as real);
  }

  // ----- the two reports agree -----

  lemma {:induction false} LineSums(a: Account, n: nat, kind: VaultKind)
    requires n <= |a.holdings|
    ensures Sum(LinesOf(a)[..n], OfKind(kind)) == if a.kind == kind then Funds(a.holdings[..n]) else 0
  {
    if n > 0 {
      LineSums(a, n - 1, kind);
      assert LinesOf(a)[..n][..n - 1] == LinesOf(a)[..n - 1];
      assert a.holdings[..n][..n - 1] == a.holdings[..n - 1];
    }
  }

  lemma {:induction false} BalanceIsLineSum(accounts: seq<Account>, kind: VaultKind)
    requires Reported(kind)
    ensures Balance(accounts, kind) == Sum(Lines(accounts), OfKind(kind))
  {
    if |accounts| > 0 {
      var front, a := accounts[..|accounts| - 1], accounts[|accounts| - 1];
      BalanceIsLineSum(front, kind);
      SumAppend(Lines(front), if Listed(a) then LinesOf(a) else [], OfKind(kind));
      LineSums(a, |a.holdings|, kind);
      assert LinesOf(a)[..|a.holdings|] == LinesOf(a) && a.holdings[..|a.holdings|] == a.holdings;
    }
  }

  /** Per type, the table's column falls short of the overview's balance by exactly the wallets whose
      asset link is empty; the row totals fall short of the grand total by all of those together. */
  lemma ReportsAgree(accounts: seq<Account>)
    ensures var rows, lines := Table(Lines(accounts)), Lines(accounts);
            && (forall kind :: Reported(kind) ==>
                  ColumnTotal(rows, kind) == Balance(accounts, kind) - Sum(lines, Unlinked(kind)))
            && AcrossTotal(rows) == GrandTotal(accounts) - Sum(lines, Unlinked(Hot))
                                    - Sum(lines, Unlinked(Warm)) - Sum(lines, Unlinked(Cold))
  {
    var rows, lines := Table(Lines(accounts)), Lines(accounts);
    forall kind | Reported(kind)
      ensures ColumnTotal(rows, kind) == Balance(accounts, kind) - Sum(lines, Unlinked(kind))
    {
      ColumnsAddUp(lines, kind);
      BalanceIsLineSum(accounts, kind);
    }
    RowsAddUp(rows);
  }

  predicate AllLinked(accounts: seq<Account>) {
    forall a :: a in accounts ==> forall h :: h in a.holdings ==> h.asset.Some?
  }

  lemma {:induction false} LinkedLines(accounts: seq<Account>, kind: VaultKind)
    requires AllLinked(accounts)
    ensures Sum(Lines(accounts), Unlinked(kind)) == 0
  {
    if |accounts| > 0 {
      var front, a := accounts[..|accounts| - 1], accounts[|accounts| - 1];
      LinkedLines(front, kind);
      SumAppend(Lines(front), if Listed(a) then LinesOf(a) else [], Unlinked(kind));
      assert forall i :: 0 <= i < |a.holdings| ==> a.holdings[i] in a.holdings && LinesOf(a)[i].asset.Some?;
      LinkedSum(LinesOf(a), kind);
    }
  }

  lemma {:induction false} LinkedSum(lines: seq<Line>, kind: VaultKind)
    requires forall i :: 0 <= i < |lines| ==> lines[i].asset.Some?
    ensures Sum(lines, Unlinked(kind)) == 0
  {
    if |lines| > 0 { LinkedSum(lines[..|lines| - 1], kind); }
  }

  /** The two reports agree: with every wallet linked to its asset, as the schema demands, each column sums
      to the overview's balance of the type and the row totals to the grand total. */
  lemma LinkedReportsAgree(accounts: seq<Account>)
    requires AllLinked(accounts)
    ensures var rows := Table(Lines(accounts));
            && (forall kind :: Reported(kind) ==> ColumnTotal(rows, kind) == Balance(accounts, kind))
            && AcrossTotal(rows) == GrandTotal(accounts)
  {
    ReportsAgree(accounts);
    forall kind ensures Sum(Lines(accounts), Unlinked(kind)) == 0 { LinkedLines(accounts, kind); }
  }

  /** The joined key names one asset as long as blockchains and currencies have no slash. */
  lemma KeyNamesAsset(a: AssetName, b: AssetName)
    requires '/' !in a.blockchain && '/' !in a.currency && '/' !in b.blockchain && '/' !in b.currency
    requires KeyOf(a) == KeyOf(b)
    ensures a == b
  {
    assert KeyOf(a) == a.blockchain + "/" + (a.currency + "/" + a.network);
    assert KeyOf(b) == b.blockchain + "/" + (b.currency + "/" + b.network);
    SplitAt('/', a.blockchain, a.currency + "/" + a.network, b.blockchain, b.currency + "/" + b.network);
    SplitAt('/', a.currency, a.network, b.currency, b.network);
  }

  // ----- the reports in plain terms -----

  function Amounts(holdings: seq<Holding>, p: Holding -> bool): (r: seq<int>)
    ensures |r| == |holdings|
    ensures forall i :: 0 <= i < |r| ==> r[i] == if p(holdings[i]) then holdings[i].balance else 0
  {
    seq(|holdings|, i requires 0 <= i < |holdings| => if p(holdings[i]) then holdings[i].balance else 0)
  }

  /** What an account holds of the assets that `p` accepts. */
  function Held(holdings: seq<Holding>, p: Holding -> bool): int { Total(Amounts(holdings, p)) }

  function Parts(accounts: seq<Account>, kind: VaultKind, p: Holding -> bool): (r: seq<int>)
    ensures |r| == |accounts|
    ensures forall i :: 0 <= i < |r| ==>
              r[i] == if accounts[i].active && accounts[i].kind == kind then Held(accounts[i].holdings, p) else 0
  {
    seq(|accounts|, i requires 0 <= i < |accounts| =>
      if accounts[i].active && accounts[i].kind == kind then Held(accounts[i].holdings, p) else 0)
  }

  /** What the active accounts of a type hold together of those assets. */
  function HeldBy(accounts: seq<Account>, kind: VaultKind, p: Holding -> bool): int {
    Total(Parts(accounts, kind, p))
  }

  function Anything(): Holding -> bool { (h: Holding) => true }

  /** Holdings in the asset with this joined name. */
  function InAsset(key: string): Holding -> bool {
    (h: Holding) =>
      h.asset.Some? && h.asset.value.blockchain + "/" + h.asset.value.currency + "/" + h.asset.value.network == key
  }

  lemma HeldNext(holdings: seq<Holding>, n: nat, p: Holding -> bool)
    requires n < |holdings|
    ensures Held(holdings[..n + 1], p) == Held(holdings[..n], p) + if p(holdings[n]) then holdings[n].balance else 0
  {
    var all, front := Amounts(holdings[..n + 1], p), Amounts(holdings[..n], p);
    assert all == front + [all[n]];
    TotalAppend(front, all[n]);
  }

  lemma HeldByNext(accounts: seq<Account>, kind: VaultKind, p: Holding -> bool)
    requires |accounts| > 0
    ensures var a := accounts[|accounts| - 1];
            HeldBy(accounts, kind, p) == HeldBy(accounts[..|accounts| - 1], kind, p)
                                         + if a.active && a.kind == kind then Held(a.holdings, p) else 0
  {
    var n := |accounts| - 1;
    var all, front := Parts(accounts, kind, p), Parts(accounts[..n], kind, p);
    assert all == front + [all[n]];
    TotalAppend(front, all[n]);
  }

  /** The funds of an account are everything it holds. */
  lemma {:induction false} FundsAreHeld(holdings: seq<Holding>)
    ensures Funds(holdings) == Held(holdings, Anything())
  {
    if |holdings| > 0 {
      var n := |holdings| - 1;
      FundsAreHeld(holdings[..n]);
      HeldNext(holdings, n, Anything());
      assert holdings[..n + 1] == holdings;
    }
  }

  /** The balance of a type is what its active accounts hold. */
  lemma {:induction false} BalanceSpelled(accounts: seq<Account>, kind: VaultKind)
    ensures Balance(accounts, kind) == HeldBy(accounts, kind, Anything())
  {
    if |accounts| > 0 {
      BalanceSpelled(accounts[..|accounts| - 1], kind);
      HeldByNext(accounts, kind, Anything());
      FundsAreHeld(accounts[|accounts| - 1].holdings);
    }
  }

  function OfType(kind: VaultKind): Account -> bool { (a: Account) => a.active && a.kind == kind }

  /** The count of a type is how many active accounts it has. */
  lemma {:induction false} CountSpelled(accounts: seq<Account>, kind: VaultKind)
    ensures Count(accounts, kind) == |Rows(accounts, OfType(kind))|
  {
    if |accounts| > 0 { CountSpelled(accounts[..|accounts| - 1], kind); }
  }

  lemma NoneOfType(accounts: seq<Account>, kind: VaultKind)
    ensures Count(accounts, kind) == 0 <==>
            forall i :: 0 <= i < |accounts| ==> !(accounts[i].active && accounts[i].kind == kind)
  {
    CountSpelled(accounts, kind);
    var rows := Rows(accounts, OfType(kind));
    if rows != [] {
      assert OfType(kind)(accounts[rows[0]]);
    } else {
      forall i | 0 <= i < |accounts| ensures !OfType(kind)(accounts[i]) { assert i !in rows; }
    }
  }

  /** The account sets a target, which is not zero, for its type. */
  ghost predicate SetsTarget(a: Account, kind: VaultKind) {
    a.active && a.kind == kind && a.target !in {None, Some(0)}
  }

  /** The target of a type is the one set last by an active vault of the type. */
  lemma {:induction false} TargetSpelled(accounts: seq<Account>, kind: VaultKind, i: nat)
    requires i < |accounts| && SetsTarget(accounts[i], kind)
    requires forall j :: i < j < |accounts| ==> !SetsTarget(accounts[j], kind)
    ensures Some(Target(accounts, kind)) == accounts[i].target
  {
    if i < |accounts| - 1 { TargetSpelled(accounts[..|accounts| - 1], kind, i); }
  }

  /** Without any it is zero, which counts as no target. */
  lemma {:induction false} NoTargetSpelled(accounts: seq<Account>, kind: VaultKind)
    requires forall i :: 0 <= i < |accounts| ==> !SetsTarget(accounts[i], kind)
    ensures Target(accounts, kind) == 0
  {
    if |accounts| > 0 {
      assert !SetsTarget(accounts[|accounts| - 1], kind);
      NoTargetSpelled(accounts[..|accounts| - 1], kind);
    }
  }

  /** The share of a type is its balance in percent of all three, and zero when those come to nothing. */
  lemma ShareSpelled(balance: int, total: int)
    ensures total <= 0 ==> Percent(balance, total) == 0.0
    ensures total > 0 ==> Percent(balance, total) * total as real == balance as real * 100.0
  {
    if total > 0 {
      var b, t := balance as real, total as real;
      assert b / t * 100.0 * t == b / t * t * 100.0;
    }
  }

  /** Health is judged by how far the share is from the target: critical beyond twenty points, a warning beyond
      ten, and always healthy without a target. */
  lemma HealthSpelled(percent: real, target: nat)
    ensures var t, health := target as real, HealthOf(percent, target);
            && (health == Critical <==> target != 0 && (percent < t - 20.0 || percent > t + 20.0))
            && (health == Healthy <==> target == 0 || t - 10.0 <= percent <= t + 10.0)
  {}

  /** The summary of a type is there if and only if it has an active account. */
  lemma SummarySpelled(accounts: seq<Account>, kind: VaultKind)
    ensures var total := HeldBy(accounts, Hot, Anything()) + HeldBy(accounts, Warm, Anything())
                         + HeldBy(accounts, Cold, Anything());
            match SummaryOf(accounts, kind)
            case None => forall i :: 0 <= i < |accounts| ==> !(accounts[i].active && accounts[i].kind == kind)
            case Some(s) =>
              && s.count > 0 && s.count == Count(accounts, kind)
              && s.balance == HeldBy(accounts, kind, Anything()) && s.target == Target(accounts, kind)
              && s.percent == Percent(s.balance, total) && s.health == HealthOf(s.percent, s.target)
  {
    NoneOfType(accounts, kind);
    BalanceSpelled(accounts, kind);
    BalanceSpelled(accounts, Hot);
    BalanceSpelled(accounts, Warm);
    BalanceSpelled(accounts, Cold);
  }

  // ----- the table in plain terms -----

  lemma {:induction false} LinesSumHeld(a: Account, n: nat, key: string, kind: VaultKind)
    requires n <= |a.holdings|
    ensures Sum(LinesOf(a)[..n], OfKey(key, kind)) == if a.kind == kind then Held(a.holdings[..n], InAsset(key)) else 0
  {
    if n > 0 {
      LinesSumHeld(a, n - 1, key, kind);
      HeldNext(a.holdings, n - 1, InAsset(key));
      assert LinesOf(a)[..n][..n - 1] == LinesOf(a)[..n - 1];
    }
  }

  lemma {:induction false} SumIsHeld(accounts: seq<Account>, key: string, kind: VaultKind)
    requires kind in {Hot, Warm, Cold}
    ensures Sum(Lines(accounts), OfKey(key, kind)) == HeldBy(accounts, kind, InAsset(key))
  {
    if |accounts| > 0 {
      var front, a := accounts[..|accounts| - 1], accounts[|accounts| - 1];
      SumIsHeld(front, key, kind);
      HeldByNext(accounts, kind, InAsset(key));
      SumAppend(Lines(front), if Listed(a) then LinesOf(a) else [], OfKey(key, kind));
      LinesSumHeld(a, |a.holdings|, key, kind);
      assert LinesOf(a)[..|a.holdings|] == LinesOf(a) && a.holdings[..|a.holdings|] == a.holdings;
    }
  }

  /** Every row of the report says what the active HOT, WARM and COLD vaults hold in its asset, and two rows are
      never about the same asset. */
  lemma RowsSpelled(accounts: seq<Account>, i: nat)
    requires i < |Table(Lines(accounts))|
    ensures var rows, row := Table(Lines(accounts)), Table(Lines(accounts))[i];
            var key := row.asset.blockchain + "/" + row.asset.currency + "/" + row.asset.network;
            && row.hot == HeldBy(accounts, Hot, InAsset(key))
            && row.warm == HeldBy(accounts, Warm, InAsset(key))
            && row.cold == HeldBy(accounts, Cold, InAsset(key))
            && forall j :: 0 <= j < |rows| && j != i ==> rows[j].asset != row.asset
  {
    var rows := Table(Lines(accounts));
    var key := rows[i].Key();
    TableIsExact(Lines(accounts));
    assert Reported(Hot) && Reported(Warm) && Reported(Cold);
    assert rows[i].Column(Hot) == Sum(Lines(accounts), OfKey(key, Hot));
    assert rows[i].Column(Warm) == Sum(Lines(accounts), OfKey(key, Warm));
    assert rows[i].Column(Cold) == Sum(Lines(accounts), OfKey(key, Cold));
    SumIsHeld(accounts, key, Hot);
    SumIsHeld(accounts, key, Warm);
    SumIsHeld(accounts, key, Cold);
    assert forall j :: 0 <= j < |rows| && j != i ==> rows[j].Key() != key;
  }

  /** The account is of a reported type and has a holding in the asset with this joined name. */
  ghost predicate Shows(a: Account, key: string) {
    a.active && a.kind in {Hot, Warm, Cold} && exists i :: 0 <= i < |a.holdings| && InAsset(key)(a.holdings[i])
  }

  lemma ShowsIsMentioned(a: Account, key: string)
    ensures Mentions(if Listed(a) then LinesOf(a) else [], key) <==> Shows(a, key)
  {
    forall i | 0 <= i < |a.holdings| ensures HasKey(LinesOf(a)[i], key) <==> InAsset(key)(a.holdings[i]) {}
  }

  lemma MentionsAppend(a: seq<Line>, b: seq<Line>, key: string)
    ensures Mentions(a + b, key) <==> Mentions(a, key) || Mentions(b, key)
  {
    if Mentions(a, key) {
      var i :| 0 <= i < |a| && HasKey(a[i], key);
      assert (a + b)[i] == a[i];
    }
    if Mentions(b, key) {
      var i :| 0 <= i < |b| && HasKey(b[i], key);
      assert (a + b)[|a| + i] == b[i];
    }
  }

  ghost predicate Shown(accounts: seq<Account>, key: string) {
    exists i :: 0 <= i < |accounts| && Shows(accounts[i], key)
  }

  lemma ShownNext(accounts: seq<Account>, key: string)
    requires |accounts| > 0
    ensures var n := |accounts| - 1;
            Shown(accounts, key) <==> Shown(accounts[..n], key) || Shows(accounts[n], key)
  {
    var n := |accounts| - 1;
    if i :| 0 <= i < n && Shows(accounts[..n][i], key) { assert Shows(accounts[i], key); }
    if i :| 0 <= i < n && Shows(accounts[i], key) { assert Shows(accounts[..n][i], key); }
  }

  lemma {:induction false} LinesMention(accounts: seq<Account>, key: string)
    ensures Mentions(Lines(accounts), key) <==> Shown(accounts, key)
  {
    if |accounts| > 0 {
      var front, a := accounts[..|accounts| - 1], accounts[|accounts| - 1];
      LinesMention(front, key);
      ShowsIsMentioned(a, key);
      MentionsAppend(Lines(front), if Listed(a) then LinesOf(a) else [], key);
      ShownNext(accounts, key);
    }
  }

  /** An asset has a row if and only if an active HOT, WARM or COLD vault has a wallet in it. */
  lemma RowsAreThose(accounts: seq<Account>, key: string)
    ensures HasRow(Table(Lines(accounts)), key) <==> exists i :: 0 <= i < |accounts| && Shows(accounts[i], key)
  {
    TableIsExact(Lines(accounts));
    LinesMention(accounts, key);
  }

  // ----- the endpoints -----

  datatype TypeBalance = TypeBalance(count: nat, balance: int, target: nat)

  function Listing(accounts: seq<Account>): (r: seq<Account>)
    ensures Lines(r) == Lines(accounts)
    ensures forall kind :: Reported(kind) ==>
              Count(r, kind) == Count(accounts, kind) && Balance(r, kind) == Balance(accounts, kind)
              && Target(r, kind) == Target(accounts, kind)
    ensures forall a :: a in r ==> Listed(a)
  {
    if |accounts| == 0 then [] else
      var front, a := Listing(accounts[..|accounts| - 1]), accounts[|accounts| - 1];
      if Listed(a) then
        var r := front + [a];
        assert r[..|r| - 1] == front;
        r
      else front
  }

  function TypeBalanceOf(accounts: seq<Account>, kind: VaultKind): TypeBalance {
    TypeBalance(Count(accounts, kind), Balance(accounts, kind), Target(accounts, kind))
  }

  function Plus(b: TypeBalance, a: Account): TypeBalance {
    TypeBalance(b.count + 1, b.balance + Funds(a.holdings),
                if a.target.Some? && a.target.value != 0 then a.target.value else b.target)
  }

  lemma TypeBalanceNext(accounts: seq<Account>, n: nat, kind: VaultKind)
    requires n < |accounts| && accounts[n].active
    ensures TypeBalanceOf(accounts[..n + 1], kind)
         == if accounts[n].kind == kind then Plus(TypeBalanceOf(accounts[..n], kind), accounts[n])
            else TypeBalanceOf(accounts[..n], kind)
  {
    assert accounts[..n + 1][..n] == accounts[..n];
  }

  ghost predicate BalancesOf(accounts: seq<Account>, balances: map<VaultKind, TypeBalance>) {
    && balances.Keys == {Hot, Warm, Cold}
    && forall kind :: kind in balances ==> balances[kind] == TypeBalanceOf(accounts, kind)
  }

  lemma BalancesNext(accounts: seq<Account>, n: nat, balances: map<VaultKind, TypeBalance>)
    requires n < |accounts| && Listed(accounts[n]) && BalancesOf(accounts[..n], balances)
    ensures var kind := accounts[n].kind;
            kind in balances && BalancesOf(accounts[..n + 1], balances[kind := Plus(balances[kind], accounts[n])])
  {
    forall kind { TypeBalanceNext(accounts, n, kind); }
  }

  method AddUpByType(vaults: seq<Account>) returns (balances: map<VaultKind, TypeBalance>)
    requires forall a :: a in vaults ==> Listed(a)
    ensures BalancesOf(vaults, balances)
  {
    balances := map[Hot := TypeBalance(0, 0, 0), Warm := TypeBalance(0, 0, 0), Cold := TypeBalance(0, 0, 0)];
    for i := 0 to |vaults|
      invariant BalancesOf(vaults[..i], balances)
    {
      var vault := vaults[i];
      assert Listed(vault);
      BalancesNext(vaults, i, balances);
      var b := balances[vault.kind];
      var target := if vault.target.Some? && vault.target.value != 0 then vault.target.value else b.target;
      balances := balances[vault.kind := TypeBalance(b.count + 1, b.balance + Funds(vault.holdings), target)];
    }
    assert vaults[..|vaults|] == vaults;
  }

  method GetTreasuryOverview(accounts: seq<Account>) returns (o: Overview)
    ensures o.total == GrandTotal(accounts)
                    == Balance(accounts, Hot) + Balance(accounts, Warm) + Balance(accounts, Cold)
    ensures o.hot == SummaryOf(accounts, Hot) && o.warm == SummaryOf(accounts, Warm)
    ensures o.cold == SummaryOf(accounts, Cold)
    ensures o.health.Critical? <==> Has(o.hot, Critical) || Has(o.warm, Critical) || Has(o.cold, Critical)
    ensures o.health.Healthy? <==> forall s :: s in {o.hot, o.warm, o.cold} ==> s.None? || s.value.health.Healthy?
  {
    var balances := AddUpByType(Listing(accounts));
    var total := balances[Hot].balance + balances[Warm].balance + balances[Cold].balance;
    var hot := MakeSummary(balances[Hot], total);
    var warm := MakeSummary(balances[Warm], total);
    var cold := MakeSummary(balances[Cold], total);
    var health := Healthy;
    if Has(hot, Critical) || Has(warm, Critical) || Has(cold, Critical) {
      health := Critical;
    } else if Has(hot, Warning) || Has(warm, Warning) || Has(cold, Warning) {
      health := Warning;
    }
    o := Overview(total, hot, warm, cold, health);
  }

  method MakeSummary(b: TypeBalance, total: int) returns (s: Option<Summary>)
    ensures s == if b.count == 0 then None
                 else Some(Summary(b.count, b.balance, b.target, Percent(b.balance, total),
                                   HealthOf(Percent(b.balance, total), b.target)))
  {
    if b.count == 0 { return None; }
    var percent := if total > 0 then b.balance as real / total as real * 100.0 else 0.0;
    var health := Healthy;
    if b.target != 0 {
      var diff := Distance(percent, b.target as real);
      if diff > 20.0 {
        health := Critical;
      } else if diff > 10.0 {
        health := Warning;
      }
    }
    s := Some(Summary(b.count, b.balance, b.target, percent, health));
  }

  /** The dict from keys to rows. */
  ghost predicate Indexes(index: map<string, nat>, rows: seq<Row>) {
    && (forall key :: key in index ==> index[key] < |rows| && rows[index[key]].Key() == key)
    && (forall i :: 0 <= i < |rows| ==> rows[i].Key() in index && index[rows[i].Key()] == i)
  }

  method AddTo(row: Row, l: Line) returns (r: Row)
    ensures r == row.Plus(l) && r.asset == row.asset
  {
    r := row;
    match l.kind {
      case Hot => r := r.(hot := r.hot + l.balance);
      case Warm => r := r.(warm := r.warm + l.balance);
      case Cold => r := r.(cold := r.cold + l.balance);
      case _ =>
    }
  }

  method Widen(index: map<string, nat>, rows: seq<Row>, a: AssetName, key: string)
    returns (index': map<string, nat>, rows': seq<Row>)
    requires Indexes(index, rows) && key == KeyOf(a)
    ensures Indexes(index', rows') && rows' == Widened(rows, a)
    ensures key in index' && index'[key] == Place(rows, key)
  {
    ghost var place := Place(rows, key);
    if key in index { return index, rows; }
    index', rows' := index[key := |rows|], rows + [Row(a, 0, 0, 0)];
  }

  lemma IndexesAssets(index: map<string, nat>, rows: seq<Row>, i: nat, row: Row)
    requires Indexes(index, rows) && i < |rows| && row.asset == rows[i].asset
    ensures Indexes(index, rows[i := row])
  {}

  method AddWallet(index: map<string, nat>, rows: seq<Row>, kind: VaultKind, wallet: Holding)
    returns (index': map<string, nat>, rows': seq<Row>)
    requires Indexes(index, rows)
    ensures rows' == Tally(rows, Line(kind, wallet.asset, wallet.balance))
    ensures Indexes(index', rows')
  {
    if wallet.asset.None? { return index, rows; }
    var key := KeyOf(wallet.asset.value);
    index', rows' := Widen(index, rows, wallet.asset.value, key);
    var i := index'[key];
    var row := AddTo(rows'[i], Line(kind, wallet.asset, wallet.balance));
    IndexesAssets(index', rows', i, row);
    rows' := rows'[i := row];
  }

  lemma TableNext(done: seq<Line>, lines: seq<Line>, j: nat)
    requires j < |lines|
    ensures Table(done + lines[..j + 1]) == Tally(Table(done + lines[..j]), lines[j])
  {
    assert (done + lines[..j + 1])[..|done| + j] == done + lines[..j];
  }

  method AddVault(index: map<string, nat>, rows: seq<Row>, vault: Account, ghost done: seq<Line>)
    returns (index': map<string, nat>, rows': seq<Row>)
    requires Indexes(index, rows) && rows == Table(done)
    ensures Indexes(index', rows') && rows' == Table(done + LinesOf(vault))
  {
    index', rows' := index, rows;
    ghost var lines := LinesOf(vault);
    assert done + lines[..0] == done;
    for j := 0 to |vault.holdings|
      invariant Indexes(index', rows') && rows' == Table(done + lines[..j])
    {
      TableNext(done, lines, j);
      index', rows' := AddWallet(index', rows', vault.kind, vault.holdings[j]);
    }
    assert lines[..|lines|] == lines;
  }

  method GetBalancesByAsset(accounts: seq<Account>) returns (rows: seq<Row>)
    ensures rows == Table(Lines(accounts))
  {
    var vaults := Listing(accounts);
    var index: map<string, nat> := map[];
    rows := [];
    for i := 0 to |vaults|
      invariant rows == Table(Lines(vaults[..i])) && Indexes(index, rows)
    {
      assert vaults[..i + 1][..i] == vaults[..i] && Listed(vaults[i]);
      index, rows := AddVault(index, rows, vaults[i], Lines(vaults[..i]));
    }
    assert vaults[..|vaults|] == vaults;
  }
}
