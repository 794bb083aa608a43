/** Which vault is the primary of its type: treasury create and update, the start-up bootstrap, and the
    import of the provider's vaults. */
module PrimaryVaults {
  import opened Basics
  import opened Ledger

  /** A vault row. `provider` is the provider's id of it, which the table keeps unique. */
  datatype Record = Record(provider: string, kind: VaultKind, active: bool, primary: bool)

  predicate Serves(r: Record, kind: VaultKind) { r.active && r.primary && r.kind == kind }

  predicate HasPrimary(rows: seq<Record>, kind: VaultKind) {
    exists i :: 0 <= i < |rows| && Serves(rows[i], kind)
  }

  predicate AtMostOne(rows: seq<Record>, kind: VaultKind) {
    forall i, j :: 0 <= i < |rows| && 0 <= j < |rows| && Serves(rows[i], kind) && Serves(rows[j], kind) ==> i == j
  }

  /** Row i is the one active primary of the type. */
  predicate Alone(rows: seq<Record>, i: nat, kind: VaultKind) {
    i < |rows| && forall j :: 0 <= j < |rows| ==> (Serves(rows[j], kind) <==> j == i)
  }

  predicate Known(rows: seq<Record>, provider: string) {
    exists i :: 0 <= i < |rows| && rows[i].provider == provider
  }

  function Primaries(rows: seq<Record>, kind: VaultKind): seq<nat> { Rows(rows, (r: Record) => Serves(r, kind)) }

  function ActiveHots(rows: seq<Record>): seq<nat> { Rows(rows, (r: Record) => r.active && r.kind.Hot?) }

  // ----- the steps -----

  /** A vault reported by the provider: its id, if it has one, its name, and whether inserting it fails. */
  datatype Found = Found(id: Option<string>, name: string, fails: bool)

  /** `created` is the provider's answer to creating a vault; for the bootstrap also the existing vault
      of that name it falls back to. */
  datatype Event =
    | Create(kind: VaultKind, primary: bool, created: Option<string>)
    | Update(vault: nat, flag: Option<bool>)
    | Bootstrap(created: Option<string>)
    | Import(found: seq<Found>)

  predicate IsTreasury(kind: VaultKind) { !kind.Regular? }

  predicate Inserts(rows: seq<Record>, created: Option<string>) { created.Some? && !Known(rows, created.value) }

  function Demoted(rows: seq<Record>, i: nat): seq<Record>
    requires i < |rows|
  {
    rows[i := rows[i].(primary := false)]
  }

  function AfterCreate(rows: seq<Record>, kind: VaultKind, primary: bool, created: Option<string>): seq<Record> {
    if !IsTreasury(kind) || !Inserts(rows, created) then rows
    else
      var record := Record(created.value, kind, true, primary);
      if !primary then rows + [record]
      else
        var current := Primaries(rows, kind);
        if |current| > 1 then rows
        else if |current| == 1 then Demoted(rows, current[0]) + [record]
        else rows + [record]
  }

  /** Every other primary of the type is demoted, active or not. */
  function OthersDemoted(rows: seq<Record>, vault: nat, kind: VaultKind): seq<Record> {
    seq(|rows|, i requires 0 <= i < |rows| =>
      if i != vault && rows[i].kind == kind then rows[i].(primary := false) else rows[i])
  }

  function AfterUpdate(rows: seq<Record>, vault: nat, primary: Option<bool>): seq<Record> {
    if vault >= |rows| || !IsTreasury(rows[vault].kind) || primary.None? then rows
    else
      var others := if primary.value then OthersDemoted(rows, vault, rows[vault].kind) else rows;
      others[vault := rows[vault].(primary := primary.value)]
  }

  /** The rows, and the vault handed back to the caller. */
  function AfterBootstrap(rows: seq<Record>, created: Option<string>): (seq<Record>, Option<nat>) {
    var current, hots := Primaries(rows, Hot), ActiveHots(rows);
    if |current| > 1 then (rows, None)
    else if |current| == 1 then (rows, Some(current[0]))
    else if |hots| > 1 then (rows, None)
    else if |hots| == 1 then (rows[hots[0] := rows[hots[0]].(primary := true)], Some(hots[0]))
    else if Inserts(rows, created) then (rows + [Record(created.value, Hot, true, true)], Some(|rows|))
    else (rows, None)
  }

  function KindFromName(name: string): VaultKind {
    var upper := Upper(name);
    if Contains(upper, "HOT") then Hot
    else if Contains(upper, "WARM") then Warm
    else if Contains(upper, "COLD") then Cold
    else if Contains(upper, "GAS") || Contains(upper, "FEE") || Contains(upper, "OPERATIONAL") then Operational
    else Regular
  }

  datatype Outcome = NoId | Skipped | Lost | Added

  function OutcomeOf(session: seq<Record>, f: Found): Outcome {
    if f.id.None? then NoId
    else if Known(session, f.id.value) then Skipped
    else if f.fails then Lost
    else Added
  }

  /** The session while importing. A failed insert rolls back to what was committed before the import. */
  function Session(committed: seq<Record>, found: seq<Found>): seq<Record> {
    if |found| == 0 then committed else
      var session, f := Session(committed, found[..|found| - 1]), found[|found| - 1];
      match OutcomeOf(session, f)
      case NoId => session
      case Skipped => session
      case Lost => committed
      case Added => session + [Record(f.id.value, KindFromName(f.name), true, false)]
  }

  function Step(rows: seq<Record>, e: Event): seq<Record> {
    match e
    case Create(kind, primary, created) => AfterCreate(rows, kind, primary, created)
    case Update(vault, primary) => AfterUpdate(rows, vault, primary)
    case Bootstrap(created) => AfterBootstrap(rows, created).0
    case Import(found) => Session(rows, found)
  }

  function Run(rows: seq<Record>, es: seq<Event>): seq<Record> {
    if |es| == 0 then rows else Step(Run(rows, es[..|es| - 1]), es[|es| - 1])
  }

  // ----- the steps in plain terms -----

  /** The type is read off the name, in any case and in this order; a name that says nothing is regular. */
  lemma KindFromNameSpelled(name: string)
    ensures var hot := exists i: nat :: StandsAt(Upper(name), "HOT", i);
            var warm := exists i: nat :: StandsAt(Upper(name), "WARM", i);
            var cold := exists i: nat :: StandsAt(Upper(name), "COLD", i);
            var fees := || (exists i: nat :: StandsAt(Upper(name), "GAS", i))
                        || (exists i: nat :: StandsAt(Upper(name), "FEE", i))
                        || (exists i: nat :: StandsAt(Upper(name), "OPERATIONAL", i));
            && (KindFromName(name) == Hot <==> hot)
            && (KindFromName(name) == Warm <==> warm && !hot)
            && (KindFromName(name) == Cold <==> cold && !hot && !warm)
            && (KindFromName(name) == Operational <==> fees && !hot && !warm && !cold)
            && (KindFromName(name) == Regular <==> !fees && !hot && !warm && !cold)
  {
    ContainsIff(Upper(name), "HOT");
    ContainsIff(Upper(name), "WARM");
    ContainsIff(Upper(name), "COLD");
    ContainsIff(Upper(name), "GAS");
    ContainsIff(Upper(name), "FEE");
    ContainsIff(Upper(name), "OPERATIONAL");
  }

  /** Row `i` is an active primary of the type. */
  ghost predicate Leads(rows: seq<Record>, kind: VaultKind, i: nat) {
    i < |rows| && rows[i].active && rows[i].primary && rows[i].kind == kind
  }

  lemma PrimariesSpelled(rows: seq<Record>, kind: VaultKind)
    ensures forall i: nat :: i in Primaries(rows, kind) <==> Leads(rows, kind, i)
    ensures |Primaries(rows, kind)| > 1 <==>
            exists i: nat, j: nat :: i < j && Leads(rows, kind, i) && Leads(rows, kind, j)
  {
    var current := Primaries(rows, kind);
    forall i: nat ensures i in current <==> Leads(rows, kind, i) {
      if i in current { var k :| 0 <= k < |current| && current[k] == i; assert Serves(rows[current[k]], kind); }
      if Leads(rows, kind, i) { assert Serves(rows[i], kind); }
    }
    if |current| > 1 {
      assert current[0] in current && current[1] in current && current[0] < current[1];
    }
    if i: nat, j: nat :| i < j && Leads(rows, kind, i) && Leads(rows, kind, j) { assert i in current && j in current; }
  }

  /** A treasury vault is added when its type is not regular, the provider's id is new, and, for a primary, at
      most one active primary of the type is there, which then stops being one. */
  lemma CreateSpelled(rows: seq<Record>, kind: VaultKind, primary: bool, created: Option<string>)
    ensures var after := AfterCreate(rows, kind, primary, created);
            var taken := exists i :: 0 <= i < |rows| && created == Some(rows[i].provider);
            var crowded := exists i: nat, j: nat :: i < j && Leads(rows, kind, i) && Leads(rows, kind, j);
            if kind == Regular || created == None || taken || (primary && crowded) then after == rows else
            && |after| == |rows| + 1
            && Some(after[|rows|].provider) == created && after[|rows|].kind == kind
            && after[|rows|].active && (after[|rows|].primary <==> primary)
            && forall i: nat :: i < |rows| ==>
                 && after[i] == rows[i].(primary := after[i].primary)
                 && (after[i].primary <==> rows[i].primary && !(primary && Leads(rows, kind, i)))
  {
    PrimariesSpelled(rows, kind);
    var current := Primaries(rows, kind);
    assert |current| == 1 ==> forall i :: i in current ==> i == current[0];
  }

  /** An update of a treasury vault sets or clears its flag as asked; setting it clears the flag of every other
      vault of the type. */
  lemma UpdateSpelled(rows: seq<Record>, vault: nat, flag: Option<bool>)
    ensures var after := AfterUpdate(rows, vault, flag);
            if vault >= |rows| || rows[vault].kind == Regular || flag == None then after == rows else
            && |after| == |rows|
            && forall i :: 0 <= i < |rows| ==>
                 && after[i] == rows[i].(primary := after[i].primary)
                 && (i == vault ==> Some(after[i].primary) == flag)
                 && (i != vault ==> (after[i].primary <==>
                       rows[i].primary && !(flag == Some(true) && rows[i].kind == rows[vault].kind)))
  {}

  /** Row `i` is the only active HOT vault. */
  ghost predicate OnlyHot(rows: seq<Record>, i: nat) {
    && i < |rows| && rows[i].active && rows[i].kind == Hot
    && forall j :: 0 <= j < |rows| && j != i ==> !(rows[j].active && rows[j].kind == Hot)
  }

  /** Row `i` is the only active primary HOT vault. */
  ghost predicate OnlyLeader(rows: seq<Record>, i: nat) {
    Leads(rows, Hot, i) && forall j: nat :: Leads(rows, Hot, j) ==> j == i
  }

  /** With an active primary HOT vault the bootstrap changes nothing, and hands it back if it is the only one. */
  lemma BootstrapWithLeader(rows: seq<Record>, created: Option<string>, i: nat)
    requires Leads(rows, Hot, i)
    ensures AfterBootstrap(rows, created) == (rows, if OnlyLeader(rows, i) then Some(i) else None)
  {
    PrimariesSpelled(rows, Hot);
    var current := Primaries(rows, Hot);
    assert i in current;
    if |current| > 1 {
      assert current[0] in current && current[1] in current && current[0] < current[1];
    } else {
      assert forall j :: j in current ==> j == current[0];
    }
  }

  /** Without one it promotes the only active HOT vault; several of them it leaves alone. */
  lemma BootstrapWithHots(rows: seq<Record>, created: Option<string>, i: nat)
    requires forall j: nat :: !Leads(rows, Hot, j)
    requires i < |rows| && rows[i].active && rows[i].kind == Hot
    ensures AfterBootstrap(rows, created)
            == if OnlyHot(rows, i) then (rows[i := Record(rows[i].provider, Hot, true, true)], Some(i))
               else (rows, None)
  {
    PrimariesSpelled(rows, Hot);
    HotsSpelled(rows);
    var current, hots := Primaries(rows, Hot), ActiveHots(rows);
    assert forall k :: 0 <= k < |current| ==> current[k] in current;
    assert i in hots;
    if |hots| == 1 { assert hots == [i]; }
  }

  /** Without any active HOT vault it adds one with the provider's id, if that is new, and hands it back. */
  lemma BootstrapWithNothing(rows: seq<Record>, created: Option<string>)
    requires forall i :: 0 <= i < |rows| ==> !(rows[i].active && rows[i].kind == Hot)
    ensures var (after, handed) := AfterBootstrap(rows, created);
            var taken := exists j :: 0 <= j < |rows| && created == Some(rows[j].provider);
            if created == None || taken then after == rows && handed == None else
            && |after| == |rows| + 1 && after[..|rows|] == rows && handed == Some(|rows|)
            && created == Some(after[|rows|].provider)
            && after[|rows|] == Record(after[|rows|].provider, Hot, true, true)
  {
    PrimariesSpelled(rows, Hot);
    HotsSpelled(rows);
    var current, hots := Primaries(rows, Hot), ActiveHots(rows);
    assert forall k :: 0 <= k < |current| ==> current[k] in current;
    assert forall k :: 0 <= k < |hots| ==> hots[k] in hots;
  }

  lemma HotsSpelled(rows: seq<Record>)
    ensures var hots := ActiveHots(rows);
            && (forall i: nat :: i in hots <==> i < |rows| && rows[i].active && rows[i].kind == Hot)
            && (forall i: nat :: hots == [i] <==> OnlyHot(rows, i))
  {
    var p := (r: Record) => r.active && r.kind.Hot?;
    var hots := ActiveHots(rows);
    forall i: nat ensures i in hots <==> i < |rows| && rows[i].active && rows[i].kind == Hot {
      if i in hots { var k :| 0 <= k < |hots| && hots[k] == i; assert p(rows[hots[k]]); }
      if i < |rows| && rows[i].active && rows[i].kind == Hot { assert p(rows[i]); }
    }
    forall i: nat ensures hots == [i] <==> OnlyHot(rows, i) { SoleRow(rows, p, i); }
  }

  /** One more vault of the import: without an id or with a known one it changes nothing; a failed insert takes
      the session back to the rows before the import; any other adds an active vault that is no primary. */
  lemma ImportNext(committed: seq<Record>, found: seq<Found>, f: Found)
    ensures var before, after := Session(committed, found), Session(committed, found + [f]);
            var taken := exists i :: 0 <= i < |before| && f.id == Some(before[i].provider);
            && (f.id == None || taken ==> after == before)
            && (f.id != None && !taken && f.fails ==> after == committed)
            && (forall id :: f.id == Some(id) && !taken && !f.fails ==>
                  after == before + [Record(id, KindFromName(f.name), true, false)])
            && Counted(committed, found + [f], Added)
               == Counted(committed, found, Added) + (if f.id != None && !taken && !f.fails then 1 else 0)
            && Counted(committed, found + [f], Skipped)
               == Counted(committed, found, Skipped) + (if f.id != None && taken then 1 else 0)
  {
    assert (found + [f])[..|found|] == found;
  }

  // ----- what each step does to the primaries -----

  lemma CreateServes(rows: seq<Record>, kind: VaultKind, primary: bool, created: Option<string>)
    ensures var after := AfterCreate(rows, kind, primary, created);
            && |rows| <= |after|
            && (forall k, i :: 0 <= i < |rows| ==>
                  (Serves(after[i], k) <==> Serves(rows[i], k) && (after == rows || !primary || k != kind)))
            && (|after| > |rows| ==> |after| == |rows| + 1 && after[|rows|].kind == kind && after[|rows|].active
                                     && after[|rows|].primary == primary)
            && (|after| == |rows| ==> after == rows)
  {
    var current := Primaries(rows, kind);
    assert forall i :: 0 <= i < |rows| && Serves(rows[i], kind) ==> i in current;
    assert |current| == 1 ==> forall i :: i in current ==> i == current[0];
    assert |current| == 0 ==> forall i :: 0 <= i < |rows| ==> !Serves(rows[i], kind);
  }

  /** A primary that is created is the only active one of its type, whatever the table looked like:
      with two already there the request is refused. */
  lemma CreatedPrimaryIsAlone(rows: seq<Record>, kind: VaultKind, created: Option<string>)
    requires AfterCreate(rows, kind, true, created) != rows
    ensures Alone(AfterCreate(rows, kind, true, created), |rows|, kind)
  {
    CreateServes(rows, kind, true, created);
  }

  /** A vault promoted by an update is the only primary of its type, active or not. */
  lemma PromotedIsAlone(rows: seq<Record>, vault: nat)
    requires vault < |rows| && IsTreasury(rows[vault].kind)
    ensures var after, kind := AfterUpdate(rows, vault, Some(true)), rows[vault].kind;
            && (forall i :: 0 <= i < |after| && after[i].kind == kind ==> (after[i].primary <==> i == vault))
            && (rows[vault].active ==> Alone(after, vault, kind))
  {}

  /** Whatever vault the bootstrap hands back is the only active primary hot vault. */
  lemma BootstrappedIsAlone(rows: seq<Record>, created: Option<string>)
    requires AfterBootstrap(rows, created).1.Some?
    ensures Alone(AfterBootstrap(rows, created).0, AfterBootstrap(rows, created).1.value, Hot)
  {
    var current, hots := Primaries(rows, Hot), ActiveHots(rows);
    assert forall i :: 0 <= i < |rows| && Serves(rows[i], Hot) ==> i in current && i in hots;
    assert |current| == 1 ==> forall i :: i in current ==> i == current[0];
    assert |hots| == 1 ==> forall i :: i in hots ==> i == hots[0];
  }

  lemma {:induction false} ImportOnlyAppends(committed: seq<Record>, found: seq<Found>)
    ensures var after := Session(committed, found);
            committed <= after && forall i :: |committed| <= i < |after| ==> !after[i].primary
  {
    if |found| > 0 { ImportOnlyAppends(committed, found[..|found| - 1]); }
  }

  /** The steps that take a type's last active primary away: clearing its flag, and promoting an inactive
      vault of the type. */
  predicate Unseats(rows: seq<Record>, e: Event, kind: VaultKind) {
    && e.Update? && e.vault < |rows| && rows[e.vault].kind == kind && IsTreasury(kind)
    && ((e.flag == Some(false) && Serves(rows[e.vault], kind)) || (e.flag == Some(true) && !rows[e.vault].active))
  }

  lemma UpdateServes(rows: seq<Record>, vault: nat, flag: Option<bool>, kind: VaultKind)
    requires vault < |rows| && IsTreasury(rows[vault].kind) && flag.Some?
    ensures var after := AfterUpdate(rows, vault, flag);
            && |after| == |rows|
            && (Serves(after[vault], kind) <==> rows[vault].active && flag.value && rows[vault].kind == kind)
            && forall i :: 0 <= i < |rows| && i != vault ==>
                 (Serves(after[i], kind) <==> Serves(rows[i], kind) && (!flag.value || rows[vault].kind != kind))
  {}

  lemma UpdatePrimaries(rows: seq<Record>, vault: nat, flag: Option<bool>, kind: VaultKind)
    requires AtMostOne(rows, kind)
    ensures var e := Update(vault, flag);
            && AtMostOne(Step(rows, e), kind)
            && (HasPrimary(rows, kind) ==> (HasPrimary(Step(rows, e), kind) <==> !Unseats(rows, e, kind)))
  {
    var after := AfterUpdate(rows, vault, flag);
    if vault < |rows| && IsTreasury(rows[vault].kind) && flag.Some? {
      UpdateServes(rows, vault, flag, kind);
      if HasPrimary(rows, kind) && !Unseats(rows, Update(vault, flag), kind) {
        var i :| 0 <= i < |rows| && Serves(rows[i], kind);
        assert Serves(after[i], kind) || Serves(after[vault], kind);
      }
    }
  }

  /** Every step keeps each type at one active primary at most, and takes the last one away exactly when
      it unseats it. */
  lemma StepPrimaries(rows: seq<Record>, e: Event, kind: VaultKind)
    requires AtMostOne(rows, kind)
    ensures AtMostOne(Step(rows, e), kind)
    ensures HasPrimary(rows, kind) ==> (HasPrimary(Step(rows, e), kind) <==> !Unseats(rows, e, kind))
  {
    var after := Step(rows, e);
    match e
    case Create(k, primary, created) =>
      CreateServes(rows, k, primary, created);
      if HasPrimary(rows, kind) {
        var i :| 0 <= i < |rows| && Serves(rows[i], kind);
        assert Serves(after[i], kind) || Serves(after[|rows|], kind);
      }
    case Update(vault, flag) => UpdatePrimaries(rows, vault, flag, kind);
    case Bootstrap(created) => BootstrapPrimaries(rows, created, kind);
    case Import(found) =>
      ImportOnlyAppends(rows, found);
      if HasPrimary(rows, kind) {
        var i :| 0 <= i < |rows| && Serves(rows[i], kind);
        assert Serves(after[i], kind);
      }
  }

  lemma BootstrapPrimaries(rows: seq<Record>, created: Option<string>, kind: VaultKind)
    requires AtMostOne(rows, kind)
    ensures var after := AfterBootstrap(rows, created).0;
            AtMostOne(after, kind) && (HasPrimary(rows, kind) ==> HasPrimary(after, kind))
  {
    var (after, handed) := AfterBootstrap(rows, created);
    if handed.Some? { BootstrappedIsAlone(rows, created); }
    assert forall i :: 0 <= i < |rows| && kind != Hot ==> (Serves(after[i], kind) <==> Serves(rows[i], kind));
    if HasPrimary(rows, kind) {
      var i :| 0 <= i < |rows| && Serves(rows[i], kind);
      assert Serves(after[i], kind);
    }
  }

  ghost predicate NeverUnseats(rows: seq<Record>, es: seq<Event>, kind: VaultKind) {
    forall n :: 0 <= n < |es| ==> !Unseats(Run(rows, es[..n]), es[n], kind)
  }

  /** Over every run a type that starts with at most one active primary keeps at most one; and one that
      starts with exactly one keeps exactly one as long as no step unseats it. */
  lemma {:induction false} RunPrimaries(rows: seq<Record>, es: seq<Event>, kind: VaultKind)
    requires AtMostOne(rows, kind)
    ensures AtMostOne(Run(rows, es), kind)
    ensures HasPrimary(rows, kind) && NeverUnseats(rows, es, kind) ==> HasPrimary(Run(rows, es), kind)
  {
    if |es| > 0 {
      var n := |es| - 1;
      assert forall k :: 0 <= k < n ==> es[..n][..k] == es[..k] && es[..n][k] == es[k];
      RunPrimaries(rows, es[..n], kind);
      StepPrimaries(Run(rows, es[..n]), es[n], kind);
    }
  }

  // ----- the import's report -----

  function Counted(committed: seq<Record>, found: seq<Found>, o: Outcome): nat {
    if |found| == 0 then 0 else
      var front, f := found[..|found| - 1], found[|found| - 1];
      Counted(committed, front, o) + if OutcomeOf(Session(committed, front), f) == o then 1 else 0
  }

  /** No insert fails after another one succeeded. */
  predicate NothingLost(committed: seq<Record>, found: seq<Found>) {
    |found| == 0
    || (var front, f := found[..|found| - 1], found[|found| - 1];
        && NothingLost(committed, front)
        && (OutcomeOf(Session(committed, front), f).Lost? ==> Counted(committed, front, Added) == 0))
  }

  /** The reported number of imported vaults is never too small, and it is the true one exactly when no
      insert failed after another succeeded: the rollback takes the earlier ones along. */
  lemma {:induction false} ReportIsHonestIff(committed: seq<Record>, found: seq<Found>)
    ensures var after, synced := Session(committed, found), Counted(committed, found, Added);
            && |committed| <= |after| <= |committed| + synced
            && (|after| == |committed| + synced <==> NothingLost(committed, found))
  {
    if |found| > 0 {
      var front := found[..|found| - 1];
      ReportIsHonestIff(committed, front);
    }
  }

  /** The second insert fails and takes the first one along, which is still reported. */
  lemma RollbackLosesImport()
    ensures var found := [Found(Some("1"), "HOT_1", false), Found(Some("2"), "COLD_1", true)];
            Session([], found) == [] && Counted([], found, Added) == 1 && !NothingLost([], found)
  {
    var first, second := Found(Some("1"), "HOT_1", false), Found(Some("2"), "COLD_1", true);
    var found := [first, second];
    assert found[..1] == [first] && [first][..0] == [];
    var one := [Record("1", KindFromName("HOT_1"), true, false)];
    assert Session([], [first]) == one && Counted([], [first], Added) == 1;
    assert one[0].provider == "1" && !Known(one, "2");
  }

  // ----- the table -----

  class VaultTable {
    var rows: seq<Record>

    constructor (rows: seq<Record>)
      ensures this.rows == rows
    {
      this.rows := rows;
    }

    method Exists(provider: string) returns (known: bool)
      ensures known == Known(rows, provider)
    {
      known := false;
      for i := 0 to |rows|
        invariant known == exists k :: 0 <= k < i && rows[k].provider == provider
      {
        if rows[i].provider == provider { known := true; }
      }
    }

    method CreateTreasuryVault(kind: VaultKind, primary: bool, created: Option<string>) returns (ok: bool)
      modifies this
      ensures rows == AfterCreate(old(rows), kind, primary, created)
      ensures ok <==> |rows| > |old(rows)|
    {
      if kind.Regular? { return false; }
      var committed := rows;
      if primary {
        var current := Primaries(rows, kind);
        if |current| > 1 { return false; }
        if |current| == 1 {
          rows := rows[current[0] := rows[current[0]].(primary := false)];
        }
      }
      var known := created.Some?;
      if created.Some? { known := Exists(created.value); }
      assert created.Some? ==> (known <==> Known(committed, created.value)) by { SameProviders(committed, rows); }
      if created.None? || known {
        rows := committed;
        return false;
      }
      rows := rows + [Record(created.value, kind, true, primary)];
      ok := true;
    }

    method UpdateTreasuryVault(vault: nat, primary: Option<bool>) returns (ok: bool)
      modifies this
      ensures rows == AfterUpdate(old(rows), vault, primary)
      ensures ok <==> vault < |old(rows)| && IsTreasury(old(rows)[vault].kind)
    {
      if vault >= |rows| { return false; }
      if rows[vault].kind.Regular? { return false; }
      if primary == Some(true) {
        var kind := rows[vault].kind;
        for i := 0 to |rows|
          invariant |rows| == |old(rows)|
          invariant forall k :: 0 <= k < i ==> rows[k] == OthersDemoted(old(rows), vault, kind)[k]
          invariant forall k :: i <= k < |rows| ==> rows[k] == old(rows)[k]
        {
          if rows[i].kind == kind && rows[i].primary && i != vault {
            rows := rows[i := rows[i].(primary := false)];
          }
        }
        rows := rows[vault := rows[vault].(primary := true)];
      } else if primary == Some(false) {
        rows := rows[vault := rows[vault].(primary := false)];
      }
      ok := true;
    }

    method BootstrapDefaultHotWallet(created: Option<string>) returns (vault: Option<nat>)
      modifies this
      ensures (rows, vault) == AfterBootstrap(old(rows), created)
    {
      var current := Primaries(rows, Hot);
      if |current| > 1 { return None; }
      if |current| == 1 { return Some(current[0]); }
      var hots := ActiveHots(rows);
      if |hots| > 1 { return None; }
      if |hots| == 1 {
        rows := rows[hots[0] := rows[hots[0]].(primary := true)];
        return Some(hots[0]);
      }
      if created.None? { return None; }
      var known := Exists(created.value);
      if known { return None; }
      rows := rows + [Record(created.value, Hot, true, true)];
      vault := Some(|rows| - 1);
    }

    method SyncVaults(found: seq<Found>) returns (synced: nat, skipped: nat, errors: nat)
      modifies this
      ensures rows == Session(old(rows), found)
      ensures synced == Counted(old(rows), found, Added)
      ensures skipped == Counted(old(rows), found, Skipped)
      ensures synced + skipped + errors == |found|
    {
      var committed := rows;
      synced, skipped, errors := 0, 0, 0;
      for i := 0 to |found|
        invariant rows == Session(committed, found[..i])
        invariant synced == Counted(committed, found[..i], Added)
        invariant skipped == Counted(committed, found[..i], Skipped)
        invariant synced + skipped + errors == i
      {
        var f := found[i];
        assert found[..i + 1][..i] == found[..i];
        if f.id.None? {
          errors := errors + 1;
          continue;
        }
        var known := Exists(f.id.value);
        if known {
          skipped := skipped + 1;
        } else if f.fails {
          errors := errors + 1;
          rows := committed;
        } else {
          rows := rows + [Record(f.id.value, KindFromName(f.name), true, false)];
          synced := synced + 1;
        }
      }
      assert found[..|found|] == found;
    }
  }

  lemma SameProviders(a: seq<Record>, b: seq<Record>)
    requires |a| == |b| && forall i :: 0 <= i < |a| ==> a[i].provider == b[i].provider
    ensures forall p :: Known(a, p) <==> Known(b, p)
  {}
}
