/** Node rows of one cluster and the three messages that change them. */
module Nodes {
  import opened Domain

  const BLANK := Node("", ZERO, None, None, None, None, "", false, 0)

  /**
   * The row after the fields of a report are assigned. A report without GPU information
   * has no GPU fields, so the old GPU columns stay.
   */
  function Written(row: Node, r: NodeReport, at: Time): Node {
    var n := row.(name := r.name,
                  figures := Resources(r.cpu, r.memory, r.storage, row.figures.gpu),
                  status := r.status, ready := r.ready, updatedAt := at);
    match r.gpu
    case None => n
    case Some(g) =>
      n.(figures := n.figures.(gpu := g.count),
         gpuKind := Some(g.kind), vendor := Some(g.vendor), vram := Some(g.vram), product := Some(g.product))
  }

  /** The row already shows every field the report carries. */
  predicate Shows(row: Node, r: NodeReport) {
    Written(row, r, row.updatedAt) == row
  }

  /** The row agrees with the report in every field that the report carries. */
  predicate Carries(row: Node, r: NodeReport) {
    && row.name == r.name && row.status == r.status && row.ready == r.ready
    && row.figures.cpu == r.cpu && row.figures.memory == r.memory && row.figures.storage == r.storage
    && (r.gpu.Some? ==>
          && row.figures.gpu == r.gpu.value.count && row.gpuKind == Some(r.gpu.value.kind)
          && row.vendor == Some(r.gpu.value.vendor) && row.vram == Some(r.gpu.value.vram)
          && row.product == Some(r.gpu.value.product))
  }

  predicate SameGpu(row: Node, other: Node) {
    && row.figures.gpu == other.figures.gpu && row.gpuKind == other.gpuKind && row.vendor == other.vendor
    && row.vram == other.vram && row.product == other.product
  }

  /**
   * What a report stamped `at` makes of a row: nothing when they agree; otherwise the row
   * agrees with the report and has its stamp, and its GPU columns are as they were when
   * the report has no GPU information.
   */
  predicate Brought(row: Node, row': Node, r: NodeReport, at: Time) {
    if Carries(row, r) then row' == row
    else Carries(row', r) && row'.updatedAt == at && (r.gpu.None? ==> SameGpu(row', row))
  }

  /** A new row for a report; without GPU information it has no GPUs. */
  predicate Fresh(row: Node, r: NodeReport, at: Time) {
    && Carries(row, r) && row.updatedAt == at
    && (r.gpu.None? ==>
          row.figures.gpu == 0 && row.gpuKind.None? && row.vendor.None? && row.vram.None? && row.product.None?)
  }

  lemma ShowsExactly(row: Node, r: NodeReport)
    ensures Shows(row, r) <==> Carries(row, r)
  {
  }

  lemma WrittenExactly(row: Node, r: NodeReport, at: Time)
    ensures Brought(row, if Shows(row, r) then row else Written(row, r, at), r, at)
    ensures Fresh(Written(BLANK, r, at), r, at)
  {
  }

  method HasNodeChanged(r: NodeReport, row: Node) returns (changed: bool)
    ensures changed <==> !Carries(row, r)
  {
    changed := r.name != row.name || r.cpu != row.figures.cpu || r.memory != row.figures.memory
            || r.storage != row.figures.storage || r.status != row.status || r.ready != row.ready;
    if r.gpu.Some? {
      var g := r.gpu.value;
      changed := changed || g.count != row.figures.gpu || Some(g.kind) != row.gpuKind || Some(g.vendor) != row.vendor
              || Some(g.vram) != row.vram || Some(g.product) != row.product;
    }
  }

  /** Equal but for the case of ASCII letters. */
  predicate SameUpToCase(a: string, b: string) {
    |a| == |b| && forall i :: 0 <= i < |a| ==> SameLetter(a[i], b[i])
  }

  predicate SameLetter(x: char, y: char) {
    x == y || ('A' <= x <= 'Z' && y as int == x as int + 32) || ('A' <= y <= 'Z' && x as int == y as int + 32)
  }

  lemma LowerExactly(a: string, b: string)
    ensures Lower(a) == Lower(b) <==> SameUpToCase(a, b)
  {
    if Lower(a) == Lower(b) {
      forall i | 0 <= i < |a| ensures SameLetter(a[i], b[i]) {
        assert Lower(a)[i] == Lower(b)[i];
      }
    }
  }

  /** The unique index: no two rows of a cluster share a name, whatever its case. */
  ghost predicate UniqueRows(rows: seq<Node>) {
    forall i, j :: 0 <= i < j < |rows| ==> Lower(rows[i].name) != Lower(rows[j].name)
  }

  predicate UniqueReports(reports: seq<NodeReport>) {
    forall i, j :: 0 <= i < j < |reports| ==> Lower(reports[i].name) != Lower(reports[j].name)
  }

  predicate HasRow(rows: seq<Node>, key: string) {
    exists i :: 0 <= i < |rows| && Lower(rows[i].name) == key
  }

  predicate HasReport(reports: seq<NodeReport>, key: string) {
    exists i :: 0 <= i < |reports| && Lower(reports[i].name) == key
  }

  function FirstReport(reports: seq<NodeReport>, key: string): (r: NodeReport)
    requires HasReport(reports, key)
    ensures r in reports && Lower(r.name) == key
  {
    var init := reports[..|reports| - 1];
    if HasReport(init, key) then FirstReport(init, key) else reports[|reports| - 1]
  }

  /** What a node list stamped `at` leaves of a row it names: an older row is brought up to date. */
  function Merged(row: Node, reports: seq<NodeReport>, at: Time): Node {
    if !HasReport(reports, Lower(row.name)) || row.updatedAt >= at then row
    else
      var r := FirstReport(reports, Lower(row.name));
      if Shows(row, r) then row else Written(row, r, at)
  }

  function Kept(rows: seq<Node>, reports: seq<NodeReport>, at: Time): seq<Node> {
    if rows == [] then []
    else
      var row := rows[|rows| - 1];
      Kept(rows[..|rows| - 1], reports, at)
      + if HasReport(reports, Lower(row.name)) then [Merged(row, reports, at)] else []
  }

  function Created(reports: seq<NodeReport>, rows: seq<Node>, at: Time): seq<Node> {
    if reports == [] then []
    else
      var r := reports[|reports| - 1];
      Created(reports[..|reports| - 1], rows, at)
      + if HasRow(rows, Lower(r.name)) then [] else [Written(BLANK, r, at)]
  }

  /** The rows after a node list, when its names differ. */
  function Synced(rows: seq<Node>, reports: seq<NodeReport>, at: Time): seq<Node> {
    Kept(rows, reports, at) + Created(reports, rows, at)
  }

  /** The row after the first report of its name is taken into account. */
  function Met(row: Node, r: NodeReport, at: Time): Node {
    if row.updatedAt >= at || Shows(row, r) then row else Written(row, r, at)
  }

  lemma MergedStep(row: Node, reports: seq<NodeReport>, k: nat, at: Time)
    requires k < |reports|
    ensures var key, before := Lower(row.name), reports[..k];
            && (HasReport(reports[..k + 1], key) <==> HasReport(before, key) || Lower(reports[k].name) == key)
            && Merged(row, reports[..k + 1], at) ==
                 if !HasReport(before, key) && Lower(reports[k].name) == key then Met(row, reports[k], at)
                 else Merged(row, before, at)
  {
    HasReportStep(reports, k, Lower(row.name));
    assert reports[..k + 1][..k] == reports[..k];
  }

  lemma HasReportStep(reports: seq<NodeReport>, k: nat, key: string)
    requires k < |reports|
    ensures HasReport(reports[..k + 1], key) <==> HasReport(reports[..k], key) || Lower(reports[k].name) == key
  {
    var before, after := reports[..k], reports[..k + 1];
    assert after == before + [reports[k]];
    if HasReport(before, key) {
      var i :| 0 <= i < |before| && Lower(before[i].name) == key;
      assert Lower(after[i].name) == key;
    }
    if Lower(reports[k].name) == key {
      assert Lower(after[k].name) == key;
    }
  }

  /** The reports the loop collects: those whose name no row has, or no longer has. */
  function Unmatched(reports: seq<NodeReport>, rows: seq<Node>): seq<NodeReport> {
    if reports == [] then []
    else
      var init, r := reports[..|reports| - 1], reports[|reports| - 1];
      Unmatched(init, rows)
      + if HasRow(rows, Lower(r.name)) && !HasReport(init, Lower(r.name)) then [] else [r]
  }

  /** What inserting the collected reports would do to the unique index. */
  ghost predicate Clashes(toCreate: seq<NodeReport>, rows: seq<Node>) {
    || !UniqueReports(toCreate)
    || exists t :: 0 <= t < |toCreate| && HasRow(rows, Lower(toCreate[t].name))
  }

  function Inserted(reports: seq<NodeReport>, at: Time): seq<Node> {
    seq(|reports|, i requires 0 <= i < |reports| => Written(BLANK, reports[i], at))
  }

  lemma {:induction false} UnmatchedNames(reports: seq<NodeReport>, rows: seq<Node>)
    ensures forall r :: r in Unmatched(reports, rows) ==> HasReport(reports, Lower(r.name))
    ensures forall key :: HasReport(reports, key) && !HasRow(rows, key) ==> HasReport(Unmatched(reports, rows), key)
  {
    if reports != [] {
      var n := |reports| - 1;
      var init, last := reports[..n], reports[n];
      assert reports[..n + 1] == reports;
      UnmatchedNames(init, rows);
      var collected := Unmatched(init, rows);
      forall key ensures HasReport(reports, key) <==> HasReport(init, key) || Lower(last.name) == key {
        HasReportStep(reports, n, key);
      }
      forall key | HasReport(reports, key) && !HasRow(rows, key) ensures HasReport(Unmatched(reports, rows), key) {
        if HasReport(init, key) {
          var t :| 0 <= t < |collected| && Lower(collected[t].name) == key;
          assert Lower(Unmatched(reports, rows)[t].name) == key;
        } else {
          assert Lower(Unmatched(reports, rows)[|collected|].name) == key;
        }
      }
    }
  }

  /** Inserting succeeds exactly when the reports' names differ. */
  lemma {:induction false} UnmatchedClash(reports: seq<NodeReport>, rows: seq<Node>)
    ensures Clashes(Unmatched(reports, rows), rows) <==> !UniqueReports(reports)
  {
    if reports != [] {
      var n := |reports| - 1;
      var init, last := reports[..n], reports[n];
      UnmatchedClash(init, rows);
      UniqueStep(reports);
      var before := Unmatched(init, rows);
      UnmatchedHas(init, rows, Lower(last.name));
      if !HasRow(rows, Lower(last.name)) || HasReport(init, Lower(last.name)) {
        ClashStep(before, last, rows);
        assert Unmatched(reports, rows) == before + [last];
      } else {
        assert Unmatched(reports, rows) == before + [] == before;
      }
    }
  }

  lemma UnmatchedHas(reports: seq<NodeReport>, rows: seq<Node>, key: string)
    ensures HasReport(Unmatched(reports, rows), key) ==> HasReport(reports, key)
    ensures HasReport(reports, key) && !HasRow(rows, key) ==> HasReport(Unmatched(reports, rows), key)
  {
    UnmatchedNames(reports, rows);
    var collected := Unmatched(reports, rows);
    if t :| 0 <= t < |collected| && Lower(collected[t].name) == key {
      assert collected[t] in collected;
    }
  }

  /** When the names differ, just the new reports are inserted. */
  lemma {:induction false} UnmatchedInserted(reports: seq<NodeReport>, rows: seq<Node>, at: Time)
    requires UniqueReports(reports)
    ensures Inserted(Unmatched(reports, rows), at) == Created(reports, rows, at)
  {
    if reports != [] {
      var n := |reports| - 1;
      UniqueStep(reports);
      UnmatchedInserted(reports[..n], rows, at);
    }
  }

  lemma UniqueStep(reports: seq<NodeReport>)
    requires reports != []
    ensures var init, last := reports[..|reports| - 1], reports[|reports| - 1];
            UniqueReports(reports) <==> UniqueReports(init) && !HasReport(init, Lower(last.name))
  {
    var init, last := reports[..|reports| - 1], reports[|reports| - 1];
    if UniqueReports(reports) {
      forall i | 0 <= i < |init| ensures Lower(init[i].name) != Lower(last.name) { assert init[i] == reports[i]; }
      forall i, j | 0 <= i < j < |init| ensures Lower(init[i].name) != Lower(init[j].name) {
        assert init[i] == reports[i] && init[j] == reports[j];
      }
    } else {
      var i, j :| 0 <= i < j < |reports| && Lower(reports[i].name) == Lower(reports[j].name);
      assert init[i] == reports[i];
      if j < |init| { assert init[j] == reports[j]; }
    }
  }

  lemma ClashStep(before: seq<NodeReport>, last: NodeReport, rows: seq<Node>)
    ensures Clashes(before + [last], rows)
       <==> Clashes(before, rows) || HasReport(before, Lower(last.name)) || HasRow(rows, Lower(last.name))
  {
    var after := before + [last];
    assert after[..|after| - 1] == before;
    UniqueStep(after);
    if t :| 0 <= t < |before| && HasRow(rows, Lower(before[t].name)) {
      assert HasRow(rows, Lower(after[t].name));
    }
    if HasRow(rows, Lower(last.name)) {
      assert HasRow(rows, Lower(after[|before|].name));
    }
    if t :| 0 <= t < |after| && HasRow(rows, Lower(after[t].name)) {
      assert t < |before| ==> before[t] == after[t];
    }
  }

  /** The unique index at insertion time. */
  method CheckIndex(toCreate: seq<NodeReport>, index: map<string, nat>, ghost rows: seq<Node>) returns (clash: bool)
    requires forall key :: key in index <==> HasRow(rows, key)
    ensures clash <==> Clashes(toCreate, rows)
  {
    var names := index.Keys;
    for t := 0 to |toCreate|
      invariant !Clashes(toCreate[..t], rows)
      invariant forall key :: key in names <==> HasRow(rows, key) || HasReport(toCreate[..t], key)
    {
      var key := Lower(toCreate[t].name);
      assert toCreate[..t + 1] == toCreate[..t] + [toCreate[t]];
      ClashStep(toCreate[..t], toCreate[t], rows);
      if key in names {
        ClashPrefix(toCreate, t + 1, rows);
        return true;
      }
      forall other ensures HasReport(toCreate[..t + 1], other) <==> HasReport(toCreate[..t], other) || other == key {
        HasReportStep(toCreate, t, other);
      }
      names := names + {key};
    }
    assert toCreate[..|toCreate|] == toCreate;
    return false;
  }

  lemma ClashPrefix(toCreate: seq<NodeReport>, t: nat, rows: seq<Node>)
    requires t <= |toCreate| && Clashes(toCreate[..t], rows)
    ensures Clashes(toCreate, rows)
  {
    var before := toCreate[..t];
    if i :| 0 <= i < t && HasRow(rows, Lower(before[i].name)) {
      assert HasRow(rows, Lower(toCreate[i].name));
    } else {
      var i, j :| 0 <= i < j < t && Lower(before[i].name) == Lower(before[j].name);
      assert Lower(toCreate[i].name) == Lower(toCreate[j].name);
    }
  }

  // ----- the loop

  /** Position of every row under its lower-cased name. */
  method IndexRows(rows: seq<Node>) returns (index: map<string, nat>)
    requires UniqueRows(rows)
    ensures Indexes(index, rows)
  {
    index := map[];
    for i := 0 to |rows|
      invariant forall k :: 0 <= k < i ==> Lower(rows[k].name) in index && index[Lower(rows[k].name)] == k
      invariant forall key :: key in index ==> index[key] < i && Lower(rows[index[key]].name) == key
    {
      index := index[Lower(rows[i].name) := i];
    }
  }

  /** An outdated report is ignored; otherwise the row is written when a field differs. */
  method RefreshRow(row: Node, report: NodeReport, at: Time) returns (row': Node, changed: bool)
    ensures row' == Met(row, report, at)
    ensures changed <==> row' != row
  {
    row', changed := row, false;
    if row.updatedAt >= at {
      return;
    }
    changed := HasNodeChanged(report, row);
    ShowsExactly(row, report);
    if changed {
      row' := Written(row, report, at);
      assert row'.updatedAt != row.updatedAt;
    }
  }

  /** Position of every row under its lower-cased name. */
  ghost predicate Indexes(index: map<string, nat>, rows: seq<Node>) {
    && (forall i :: 0 <= i < |rows| ==> Lower(rows[i].name) in index && index[Lower(rows[i].name)] == i)
    && (forall key :: key in index ==> index[key] < |rows| && Lower(rows[index[key]].name) == key)
  }

  function MergedRows(rows: seq<Node>, reports: seq<NodeReport>, at: Time): seq<Node> {
    seq(|rows|, i requires 0 <= i < |rows| => Merged(rows[i], reports, at))
  }

  /** One more report touches at most the row that still waits under its name. */
  lemma MergedRowsStep(rows: seq<Node>, reports: seq<NodeReport>, k: nat, at: Time, index: map<string, nat>)
    requires k < |reports| && Indexes(index, rows)
    ensures var key, before := Lower(reports[k].name), MergedRows(rows, reports[..k], at);
            MergedRows(rows, reports[..k + 1], at) ==
              if key in index && !HasReport(reports[..k], key)
              then before[index[key] := Met(before[index[key]], reports[k], at)] else before
  {
    forall i | 0 <= i < |rows|
      ensures Merged(rows[i], reports[..k + 1], at) ==
        if !HasReport(reports[..k], Lower(rows[i].name)) && Lower(reports[k].name) == Lower(rows[i].name)
        then Met(rows[i], reports[k], at) else Merged(rows[i], reports[..k], at)
    {
      MergedStep(rows[i], reports, k, at);
    }
  }

  /** A row that no report has taken yet is as it was. */
  lemma StillWaiting(rows: seq<Node>, reports: seq<NodeReport>, at: Time, i: nat)
    requires i < |rows| && !HasReport(reports, Lower(rows[i].name))
    ensures MergedRows(rows, reports, at)[i] == rows[i]
  {
  }

  /** Writing a row that still stood as it was changes the rows exactly when it changes the row. */
  lemma WrittenDiffers(rows: seq<Node>, current: seq<Node>, i: nat, row: Node)
    requires |current| == |rows| && i < |rows| && current[i] == rows[i]
    ensures current[i := row] != rows <==> current != rows || row != rows[i]
  {
    if current != rows {
      var j :| 0 <= j < |rows| && current[j] != rows[j];
      assert current[i := row][j] != rows[j];
    } else if row != rows[i] {
      assert current[i := row][i] != rows[i];
    } else {
      assert current[i := row] == rows;
    }
  }

  /** The index entries whose name no report has taken. */
  ghost predicate Unpopped(index: map<string, nat>, existing: map<string, nat>, reports: seq<NodeReport>) {
    && (forall key :: key in existing <==> key in index && !HasReport(reports, key))
    && (forall key :: key in existing ==> existing[key] == index[key])
  }

  lemma UnpoppedStep(index: map<string, nat>, existing: map<string, nat>, reports: seq<NodeReport>, k: nat)
    requires k < |reports| && Unpopped(index, existing, reports[..k])
    ensures var key := Lower(reports[k].name);
            && Unpopped(index, if key in existing then existing - {key} else existing, reports[..k + 1])
            && (key in existing <==> key in index && !HasReport(reports[..k], key))
            && (key in existing ==> existing[key] == index[key])
  {
    forall other
      ensures HasReport(reports[..k + 1], other) <==> HasReport(reports[..k], other) || Lower(reports[k].name) == other
    {
      HasReportStep(reports, k, other);
    }
  }

  /** The pass over the reports: rows popped by name and brought up to date, the rest collected. */
  method MatchReports(rows: seq<Node>, reports: seq<NodeReport>, at: Time, index: map<string, nat>)
    returns (current: seq<Node>, toCreate: seq<NodeReport>, existing: map<string, nat>, changed: bool)
    requires Indexes(index, rows)
    ensures current == MergedRows(rows, reports, at)
    ensures toCreate == Unmatched(reports, rows)
    ensures forall key :: key in existing <==> key in index && !HasReport(reports, key)
    ensures changed <==> toCreate != [] || current != rows
  {
    existing, current, toCreate, changed := index, rows, [], false;
    assert current == MergedRows(rows, reports[..0], at);
    for k := 0 to |reports|
      invariant current == MergedRows(rows, reports[..k], at)
      invariant toCreate == Unmatched(reports[..k], rows)
      invariant Unpopped(index, existing, reports[..k])
      invariant changed <==> toCreate != [] || current != rows
    {
      var report := reports[k];
      var key := Lower(report.name);
      MergedRowsStep(rows, reports, k, at, index);
      assert reports[..k + 1][..k] == reports[..k];
      UnpoppedStep(index, existing, reports, k);
      if key in existing {
        var i := existing[key];
        existing := existing - {key};
        StillWaiting(rows, reports[..k], at, i);
        var row, differs := RefreshRow(current[i], report, at);
        WrittenDiffers(rows, current, i, row);
        current := current[i := row];
        changed := changed || differs;
      } else {
        assert key in index <==> HasRow(rows, key);
        toCreate := toCreate + [report];
        changed := true;
      }
    }
    assert reports[..|reports|] == reports;
  }

  /**
   * A node list as one transaction: rows popped by name are brought up to date, reports
   * without a row are inserted, rows never popped are deleted. Two reports of one name
   * (up to case) break the unique index and fail the whole message. The returned flag
   * asks for new allocations.
   */
  method SyncRows(rows: seq<Node>, reports: seq<NodeReport>, at: Time) returns (r: Result<(seq<Node>, bool)>)
    requires UniqueRows(rows)
    ensures r.Ok? <==> UniqueReports(reports)
    ensures r.Ok? ==> r.value.0 == Synced(rows, reports, at)
    ensures r.Ok? ==> r.value.1 == (r.value.0 != rows)
  {
    var index := IndexRows(rows);
    var current, toCreate, existing, changed := MatchReports(rows, reports, at, index);
    var clash := CheckIndex(toCreate, index, rows);
    UnmatchedClash(reports, rows);
    if clash {
      return Err(Conflict);
    }
    UnmatchedInserted(reports, rows, at);
    var kept := DropUnnamed(rows, current, reports, at, existing, index);
    SyncedSame(rows, reports, at);
    AllPopped(rows, reports, index, existing);
    return Ok((kept + Inserted(toCreate, at), changed || existing != map[]));
  }

  /** Rows that no report popped are deleted. */
  method DropUnnamed(rows: seq<Node>, current: seq<Node>, ghost reports: seq<NodeReport>, ghost at: Time,
                     existing: map<string, nat>, ghost index: map<string, nat>)
    returns (kept: seq<Node>)
    requires Indexes(index, rows) && current == MergedRows(rows, reports, at)
    requires forall key :: key in existing <==> key in index && !HasReport(reports, key)
    ensures kept == Kept(rows, reports, at)
  {
    kept := [];
    for i := 0 to |rows|
      invariant kept == Kept(rows[..i], reports, at)
    {
      assert rows[..i + 1][..i] == rows[..i];
      if Lower(rows[i].name) !in existing {
        kept := kept + [current[i]];
      }
    }
    assert rows[..|rows|] == rows;
  }

  ghost predicate AllNamed(rows: seq<Node>, reports: seq<NodeReport>) {
    forall i :: 0 <= i < |rows| ==> HasReport(reports, Lower(rows[i].name))
  }

  lemma AllPopped(rows: seq<Node>, reports: seq<NodeReport>, index: map<string, nat>, existing: map<string, nat>)
    requires Indexes(index, rows)
    requires forall key :: key in existing <==> key in index && !HasReport(reports, key)
    ensures existing == map[] <==> AllNamed(rows, reports)
  {
    if existing == map[] {
      forall i | 0 <= i < |rows| ensures HasReport(reports, Lower(rows[i].name)) {
        assert Lower(rows[i].name) !in existing;
      }
    }
  }

  // ----- what a node list achieves

  lemma HasRowAppend(a: seq<Node>, b: seq<Node>, key: string)
    ensures HasRow(a + b, key) <==> HasRow(a, key) || HasRow(b, key)
  {
    var c := a + b;
    if HasRow(a, key) {
      var i :| 0 <= i < |a| && Lower(a[i].name) == key;
      assert Lower(c[i].name) == key;
    }
    if HasRow(b, key) {
      var i :| 0 <= i < |b| && Lower(b[i].name) == key;
      assert Lower(c[|a| + i].name) == key;
    }
  }

  lemma HasRowOne(row: Node, key: string)
    ensures HasRow([row], key) <==> Lower(row.name) == key
  {
    assert [row][0] == row;
  }

  lemma {:induction false} KeptNames(rows: seq<Node>, reports: seq<NodeReport>, at: Time, key: string)
    ensures HasRow(Kept(rows, reports, at), key) <==> HasRow(rows, key) && HasReport(reports, key)
  {
    if rows != [] {
      var init, row := rows[..|rows| - 1], rows[|rows| - 1];
      KeptNames(init, reports, at, key);
      assert rows == init + [row];
      OneMoreRow(init, row, key);
      if HasReport(reports, Lower(row.name)) {
        OneMoreRow(Kept(init, reports, at), Merged(row, reports, at), key);
      } else {
        assert Kept(init, reports, at) + [] == Kept(init, reports, at);
      }
    }
  }

  lemma OneMoreRow(rows: seq<Node>, row: Node, key: string)
    ensures HasRow(rows + [row], key) <==> HasRow(rows, key) || Lower(row.name) == key
  {
    HasRowAppend(rows, [row], key);
    HasRowOne(row, key);
  }

  lemma {:induction false} CreatedNames(reports: seq<NodeReport>, rows: seq<Node>, at: Time, key: string)
    ensures HasRow(Created(reports, rows, at), key) <==> HasReport(reports, key) && !HasRow(rows, key)
  {
    if reports != [] {
      var n := |reports| - 1;
      var init, r := reports[..n], reports[n];
      CreatedNames(init, rows, at, key);
      assert reports[..n + 1] == reports;
      HasReportStep(reports, n, key);
      HasRowOne(Written(BLANK, r, at), key);
      HasRowAppend(Created(init, rows, at), [Written(BLANK, r, at)], key);
      assert Created(init, rows, at) + [] == Created(init, rows, at);
    }
  }

  /** Exactly the named nodes are left. */
  lemma SyncedNames(rows: seq<Node>, reports: seq<NodeReport>, at: Time, key: string)
    ensures HasRow(Synced(rows, reports, at), key) <==> HasReport(reports, key)
  {
    KeptNames(rows, reports, at, key);
    CreatedNames(reports, rows, at, key);
    HasRowAppend(Kept(rows, reports, at), Created(reports, rows, at), key);
  }

  /** The row agrees with its report on every reported field, or is at least as fresh as the message. */
  predicate UpToDate(row: Node, reports: seq<NodeReport>, at: Time) {
    HasReport(reports, Lower(row.name))
    && (row.updatedAt >= at || Carries(row, FirstReport(reports, Lower(row.name))))
  }

  lemma MergedUpToDate(row: Node, reports: seq<NodeReport>, at: Time)
    requires HasReport(reports, Lower(row.name))
    ensures UpToDate(Merged(row, reports, at), reports, at)
  {
    var r := FirstReport(reports, Lower(row.name));
    ShowsExactly(row, r);
    WrittenExactly(row, r, at);
  }

  lemma {:induction false} KeptUpToDate(rows: seq<Node>, reports: seq<NodeReport>, at: Time)
    ensures forall row :: row in Kept(rows, reports, at) ==> UpToDate(row, reports, at)
  {
    if rows != [] {
      KeptUpToDate(rows[..|rows| - 1], reports, at);
      if HasReport(reports, Lower(rows[|rows| - 1].name)) {
        MergedUpToDate(rows[|rows| - 1], reports, at);
      }
    }
  }

  lemma {:induction false} CreatedUpToDate(reports: seq<NodeReport>, rows: seq<Node>, at: Time)
    ensures forall row :: row in Created(reports, rows, at) ==>
              HasReport(reports, Lower(row.name)) && row.updatedAt == at
  {
    if reports != [] {
      var n := |reports| - 1;
      CreatedUpToDate(reports[..n], rows, at);
      assert reports[..n + 1] == reports;
      forall row | row in Created(reports, rows, at)
        ensures HasReport(reports, Lower(row.name)) && row.updatedAt == at
      {
        HasReportStep(reports, n, Lower(row.name));
      }
    }
  }

  lemma {:induction false} UpToDateKept(rows: seq<Node>, reports: seq<NodeReport>, at: Time)
    requires forall row :: row in rows ==> UpToDate(row, reports, at)
    ensures Kept(rows, reports, at) == rows
  {
    if rows != [] {
      var init, row := rows[..|rows| - 1], rows[|rows| - 1];
      assert row in rows;
      UpToDateKept(init, reports, at);
      ShowsExactly(row, FirstReport(reports, Lower(row.name)));
      assert Merged(row, reports, at) == row;
      assert rows == init + [row];
    }
  }

  lemma {:induction false} NothingCreated(reports: seq<NodeReport>, rows: seq<Node>, at: Time)
    requires forall r :: r in reports ==> HasRow(rows, Lower(r.name))
    ensures Created(reports, rows, at) == []
  {
    if reports != [] {
      NothingCreated(reports[..|reports| - 1], rows, at);
    }
  }

  /**
   * Node sync: a list with distinct names leaves exactly the named nodes, each up to
   * date with its report, and applying it again changes nothing.
   */
  lemma SyncAchieves(rows: seq<Node>, reports: seq<NodeReport>, at: Time)
    ensures forall key :: HasRow(Synced(rows, reports, at), key) <==> HasReport(reports, key)
    ensures forall row :: row in Synced(rows, reports, at) ==> UpToDate(row, reports, at)
    ensures Synced(Synced(rows, reports, at), reports, at) == Synced(rows, reports, at)
  {
    var next := Synced(rows, reports, at);
    forall key ensures HasRow(next, key) <==> HasReport(reports, key) {
      SyncedNames(rows, reports, at, key);
    }
    KeptUpToDate(rows, reports, at);
    CreatedUpToDate(reports, rows, at);
    UpToDateKept(next, reports, at);
    forall r | r in reports ensures HasRow(next, Lower(r.name)) {
      var i :| 0 <= i < |reports| && reports[i] == r;
      assert HasReport(reports, Lower(r.name));
    }
    NothingCreated(reports, next, at);
  }

  /** With names that differ, the report that decides on a row is the one of its name. */
  lemma {:induction false} OnlyReport(reports: seq<NodeReport>, j: nat)
    requires j < |reports| && UniqueReports(reports)
    ensures HasReport(reports, Lower(reports[j].name)) && FirstReport(reports, Lower(reports[j].name)) == reports[j]
  {
    var key, init := Lower(reports[j].name), reports[..|reports| - 1];
    UniqueStep(reports);
    if j < |init| {
      assert init[j] == reports[j];
      OnlyReport(init, j);
    }
  }

  lemma {:induction false} KeptHas(rows: seq<Node>, reports: seq<NodeReport>, at: Time, i: nat)
    requires i < |rows| && HasReport(reports, Lower(rows[i].name))
    ensures Merged(rows[i], reports, at) in Kept(rows, reports, at)
  {
    var n := |rows| - 1;
    if i < n {
      assert rows[..n][i] == rows[i];
      KeptHas(rows[..n], reports, at, i);
    }
  }

  lemma {:induction false} CreatedHas(reports: seq<NodeReport>, rows: seq<Node>, at: Time, j: nat)
    requires j < |reports| && !HasRow(rows, Lower(reports[j].name))
    ensures Written(BLANK, reports[j], at) in Created(reports, rows, at)
  {
    var n := |reports| - 1;
    if j < n {
      assert reports[..n][j] == reports[j];
      CreatedHas(reports[..n], rows, at, j);
    }
  }

  /** What a node list does to a row that one of its reports names. */
  lemma SyncBrings(rows: seq<Node>, reports: seq<NodeReport>, at: Time, i: nat, j: nat) returns (row: Node)
    requires UniqueReports(reports)
    requires i < |rows| && j < |reports| && Lower(rows[i].name) == Lower(reports[j].name)
    ensures row in Synced(rows, reports, at)
    ensures if rows[i].updatedAt >= at then row == rows[i] else Brought(rows[i], row, reports[j], at)
    ensures rows[i].updatedAt < at && !Carries(rows[i], reports[j]) ==> Synced(rows, reports, at) != rows
  {
    OnlyReport(reports, j);
    KeptHas(rows, reports, at, i);
    WrittenExactly(rows[i], reports[j], at);
    ShowsExactly(rows[i], reports[j]);
    row := Merged(rows[i], reports, at);
    SyncedSame(rows, reports, at);
    assert MergedRows(rows, reports, at)[i] == row;
  }

  /** And what it makes of a report that names no row. */
  lemma SyncCreates(rows: seq<Node>, reports: seq<NodeReport>, at: Time, j: nat) returns (row: Node)
    requires j < |reports| && !HasRow(rows, Lower(reports[j].name))
    ensures row in Synced(rows, reports, at) && Fresh(row, reports[j], at)
  {
    CreatedHas(reports, rows, at, j);
    WrittenExactly(BLANK, reports[j], at);
    row := Written(BLANK, reports[j], at);
  }

  lemma {:induction false} KeptAll(rows: seq<Node>, reports: seq<NodeReport>, at: Time, current: seq<Node>)
    requires |current| == |rows| && forall i :: 0 <= i < |rows| ==> current[i] == Merged(rows[i], reports, at)
    requires forall i :: 0 <= i < |rows| ==> HasReport(reports, Lower(rows[i].name))
    ensures Kept(rows, reports, at) == current
  {
    if rows != [] {
      var n := |rows| - 1;
      KeptAll(rows[..n], reports, at, current[..n]);
      assert HasReport(reports, Lower(rows[n].name));
      assert current == current[..n] + [current[n]];
    }
  }

  /** When the sync changes nothing: no new name, no row to write, no row to delete. */
  lemma SyncedSame(rows: seq<Node>, reports: seq<NodeReport>, at: Time)
    ensures Synced(rows, reports, at) == rows
       <==> Created(reports, rows, at) == [] && MergedRows(rows, reports, at) == rows && AllNamed(rows, reports)
  {
    if Synced(rows, reports, at) == rows {
      forall i | 0 <= i < |rows| ensures HasReport(reports, Lower(rows[i].name)) {
        assert HasRow(rows, Lower(rows[i].name));
        SyncedNames(rows, reports, at, Lower(rows[i].name));
      }
    }
    if AllNamed(rows, reports) {
      KeptAll(rows, reports, at, MergedRows(rows, reports, at));
    }
  }

  lemma {:induction false} KeptUnique(rows: seq<Node>, reports: seq<NodeReport>, at: Time)
    requires UniqueRows(rows)
    ensures UniqueRows(Kept(rows, reports, at))
  {
    if rows != [] {
      var init, row := rows[..|rows| - 1], rows[|rows| - 1];
      KeptUnique(init, reports, at);
      KeptNames(init, reports, at, Lower(row.name));
      var kept := Kept(init, reports, at);
      assert forall i :: 0 <= i < |kept| ==> Lower(kept[i].name) != Lower(row.name);
    }
  }

  lemma {:induction false} CreatedUnique(reports: seq<NodeReport>, rows: seq<Node>, at: Time)
    requires UniqueReports(reports)
    ensures UniqueRows(Created(reports, rows, at))
  {
    if reports != [] {
      var init, r := reports[..|reports| - 1], reports[|reports| - 1];
      UniqueStep(reports);
      CreatedUnique(init, rows, at);
      CreatedNames(init, rows, at, Lower(r.name));
      var before := Created(init, rows, at);
      assert forall i :: 0 <= i < |before| ==> Lower(before[i].name) != Lower(r.name);
    }
  }

  /** The unique index holds again after a node list. */
  lemma SyncedUnique(rows: seq<Node>, reports: seq<NodeReport>, at: Time)
    requires UniqueRows(rows) && UniqueReports(reports)
    ensures UniqueRows(Synced(rows, reports, at))
  {
    KeptUnique(rows, reports, at);
    CreatedUnique(reports, rows, at);
    var kept, made := Kept(rows, reports, at), Created(reports, rows, at);
    forall i, j | 0 <= i < |kept| && 0 <= j < |made| ensures Lower(kept[i].name) != Lower(made[j].name) {
      var key := Lower(kept[i].name);
      if key == Lower(made[j].name) {
        assert HasRow(kept, key) && HasRow(made, key);
        KeptNames(rows, reports, at, key);
        CreatedNames(reports, rows, at, key);
      }
    }
  }

  // ----- single-node messages

  predicate Named(rows: seq<Node>, name: string) {
    exists i :: 0 <= i < |rows| && rows[i].name == name
  }

  /** Position of the row with exactly this name, or the number of rows. */
  method FindRow(rows: seq<Node>, name: string) returns (i: nat)
    ensures i <= |rows|
    ensures i < |rows| ==> rows[i].name == name
    ensures i == |rows| <==> !Named(rows, name)
  {
    i := 0;
    while i < |rows|
      invariant i <= |rows|
      invariant forall k :: 0 <= k < i ==> rows[k].name != name
    {
      if rows[i].name == name {
        return;
      }
      i := i + 1;
    }
  }

  /** A node update has no staleness check, and matches names exactly. */
  function Updated(rows: seq<Node>, r: NodeReport, at: Time): Result<seq<Node>> {
    if Named(rows, r.name) then
      Ok(seq(|rows|, i requires 0 <= i < |rows| =>
        if rows[i].name == r.name && !Shows(rows[i], r) then Written(rows[i], r, at) else rows[i]))
    else if HasRow(rows, Lower(r.name)) then Err(Conflict)
    else Ok(rows + [Written(BLANK, r, at)])
  }

  method UpdateRow(rows: seq<Node>, r: NodeReport, at: Time) returns (result: Result<(seq<Node>, bool)>)
    requires UniqueRows(rows)
    ensures result.Ok? <==> Updated(rows, r, at).Ok?
    ensures result.Err? ==> result.error == Conflict
    ensures result.Ok? ==> result.value.0 == Updated(rows, r, at).value
    ensures result.Ok? ==> result.value.1 == (result.value.0 != rows)
  {
    var i := FindRow(rows, r.name);
    if i < |rows| {
      forall j | 0 <= j < |rows| && rows[j].name == r.name ensures j == i {
        assert Lower(rows[j].name) == Lower(rows[i].name);
      }
      var changed := HasNodeChanged(r, rows[i]);
      ShowsExactly(rows[i], r);
      if changed {
        assert Written(rows[i], r, at) != rows[i];
        return Ok((rows[i := Written(rows[i], r, at)], true));
      }
      return Ok((rows, false));
    }
    var index := IndexRows(rows);
    if Lower(r.name) in index {
      return Err(Conflict);
    }
    return Ok((rows + [Written(BLANK, r, at)], true));
  }

  function Removed(rows: seq<Node>, name: string): seq<Node> {
    if rows == [] then []
    else if rows[0].name == name then Removed(rows[1..], name)
    else [rows[0]] + Removed(rows[1..], name)
  }

  lemma {:induction false} RemovedRows(rows: seq<Node>, name: string)
    ensures forall row :: row in Removed(rows, name) <==> row in rows && row.name != name
    ensures Removed(rows, name) == rows <==> !Named(rows, name)
  {
    if rows != [] {
      var rest := rows[1..];
      assert rows == [rows[0]] + rest;
      RemovedRows(rest, name);
      if i :| 0 <= i < |rest| && rest[i].name == name {
        assert rows[i + 1].name == name;
      }
      if i :| 0 <= i < |rows| && rows[i].name == name {
        assert rows[i] in rows && rows[i] !in Removed(rows, name);
      }
    }
  }

  lemma UniqueTail(rows: seq<Node>)
    requires UniqueRows(rows) && rows != []
    ensures UniqueRows(rows[1..]) && forall row :: row in rows[1..] ==> Lower(row.name) != Lower(rows[0].name)
  {
    var rest := rows[1..];
    forall i, j | 0 <= i < j < |rest| ensures Lower(rest[i].name) != Lower(rest[j].name) {
      assert rows[i + 1] == rest[i] && rows[j + 1] == rest[j];
    }
    forall row | row in rest ensures Lower(row.name) != Lower(rows[0].name) {
      var i :| 0 <= i < |rest| && rest[i] == row;
      assert rows[i + 1] == row;
    }
  }

  lemma {:induction false} RemovedUnique(rows: seq<Node>, name: string)
    requires UniqueRows(rows)
    ensures UniqueRows(Removed(rows, name))
  {
    if rows != [] {
      UniqueTail(rows);
      RemovedUnique(rows[1..], name);
      RemovedRows(rows[1..], name);
    }
  }

  /** A node update brings only the row of exactly its name up to date, or adds a new one. */
  lemma UpdateBrings(rows: seq<Node>, r: NodeReport, at: Time)
    requires Updated(rows, r, at).Ok?
    ensures var next := Updated(rows, r, at).value;
            if Named(rows, r.name) then
              && |next| == |rows|
              && forall i :: 0 <= i < |rows| ==>
                   if rows[i].name == r.name then Brought(rows[i], next[i], r, at) else next[i] == rows[i]
            else |next| == |rows| + 1 && next[..|rows|] == rows && Fresh(next[|rows|], r, at)
  {
    WrittenExactly(BLANK, r, at);
    forall i | 0 <= i < |rows|
      ensures Brought(rows[i], if Shows(rows[i], r) then rows[i] else Written(rows[i], r, at), r, at)
    {
      WrittenExactly(rows[i], r, at);
    }
  }

  /** A node update is refused exactly when its name is that of no row, but for its case that of one. */
  lemma UpdateRefused(rows: seq<Node>, r: NodeReport, at: Time)
    ensures Updated(rows, r, at).Err? <==>
              && (forall i :: 0 <= i < |rows| ==> rows[i].name != r.name)
              && exists i :: 0 <= i < |rows| && Lower(rows[i].name) == Lower(r.name)
  {
  }

  lemma UpdatedUnique(rows: seq<Node>, r: NodeReport, at: Time)
    requires UniqueRows(rows) && Updated(rows, r, at).Ok?
    ensures UniqueRows(Updated(rows, r, at).value)
  {
    var next := Updated(rows, r, at).value;
    if Named(rows, r.name) {
      forall i | 0 <= i < |rows| ensures next[i].name == rows[i].name {}
    }
  }

  /** A node update applied again changes nothing. */
  lemma UpdatedTwice(rows: seq<Node>, r: NodeReport, at: Time)
    requires Updated(rows, r, at).Ok?
    ensures var next := Updated(rows, r, at).value; Updated(next, r, at) == Ok(next)
  {
    var next := Updated(rows, r, at).value;
    if Named(rows, r.name) {
      var i :| 0 <= i < |rows| && rows[i].name == r.name;
      assert next[i].name == r.name;
    } else {
      assert next[|rows|].name == r.name;
    }
    assert Updated(next, r, at).value == next;
  }

  /** A node deletion applied again changes nothing. */
  lemma RemovedTwice(rows: seq<Node>, name: string)
    ensures Removed(Removed(rows, name), name) == Removed(rows, name)
  {
    RemovedRows(rows, name);
    RemovedRows(Removed(rows, name), name);
    var left := Removed(rows, name);
    forall i | 0 <= i < |left| ensures left[i].name != name {
      assert left[i] in left;
    }
  }
}
