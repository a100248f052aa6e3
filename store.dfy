/** The CSV files of the crawlers, as sequences of rows (CSV quoting is
    abstracted away): the output file that receives `name,domain` rows and
    doubles as the resume set, and the reading rules shared by several
    variants. */
module Store {
  import opened Seqs
  import opened Text

  type Row = seq<string>

  const HEADER: Row := ["name", "domain"]

  /** A file on disk: whether it exists, and its rows. */
  class CsvFile {
    var present: bool
    var rows: seq<Row>

    /** A file that does not exist has no rows. */
    ghost predicate Valid()
      reads this
    {
      !present ==> rows == []
    }

    constructor (present: bool, rows: seq<Row>)
      requires !present ==> rows == []
      ensures Valid() && this.present == present && this.rows == rows
    {
      this.present := present;
      this.rows := rows;
    }

    /** `open(path, 'a')` and one `writerow` per row: creates the file when
        absent and adds the rows at its end. */
    method Append(more: seq<Row>)
      modifies this
      requires Valid()
      ensures Valid() && present && rows == old(rows) + more
    {
      present := true;
      rows := rows + more;
    }

    /** `open(path, 'w')`: the file holds exactly the given rows. */
    method Overwrite(content: seq<Row>)
      modifies this
      ensures Valid() && present && rows == content
    {
      present := true;
      rows := content;
    }
  }

  // ---------------------------------------------------------------------------
  // Appending a result with a header written only for a new file.
  // ---------------------------------------------------------------------------

  /** The rows after appending `row` with the header written first exactly
      when the file did not exist. */
  function AppendedSite(present: bool, rows: seq<Row>, row: Row): seq<Row>
  {
    (if present then rows else [HEADER]) + [row]
  }

  /** `write_wordpress_site(name, domain)` and its counterparts: open the file
      for appending, write the header first when the file did not exist, then
      the result row. */
  method WriteSite(out: CsvFile, name: string, domain: string)
    modifies out
    requires out.Valid()
    ensures out.Valid() && out.present
    ensures out.rows == AppendedSite(old(out.present), old(out.rows), [name, domain])
  {
    var fileExists := out.present;
    if !fileExists {
      out.Append([HEADER]);
    }
    out.Append([[name, domain]]);
  }

  /** The row, if any, that processing name i adds: the name and the found
      host, the host written after `scheme` (empty, or "https://"). */
  function ResultRow(names: seq<string>, scheme: string, outcome: string -> Option<string>): nat -> seq<Row>
  {
    (i: nat) => if i < |names| && outcome(names[i]).Some? then [[names[i], scheme + outcome(names[i]).value]] else []
  }

  /** One step of a loop that processes the names in input order and writes
      each name's row as soon as it is known. */
  lemma ResultRowStep(start: seq<Row>, names: seq<string>, scheme: string, outcome: string -> Option<string>,
                      i: nat, r: Option<string>, before: seq<Row>, after: seq<Row>)
    requires i < |names| && r == outcome(names[i])
    requires before == start + Gather(Indices(i), ResultRow(names, scheme, outcome))
    requires after == if r.Some? then before + [[names[i], scheme + r.value]] else before
    ensures after == start + Gather(Indices(i + 1), ResultRow(names, scheme, outcome))
  {
    var rowOf := ResultRow(names, scheme, outcome);
    GatherIndicesSnoc(i, rowOf);
    AppendAssoc(start, Gather(Indices(i), rowOf), rowOf(i));
  }

  /** The same step when the host is written as it is. */
  lemma ResultRowStepPlain(start: seq<Row>, names: seq<string>, outcome: string -> Option<string>,
                           i: nat, r: Option<string>, before: seq<Row>, after: seq<Row>)
    requires i < |names| && r == outcome(names[i])
    requires before == start + Gather(Indices(i), ResultRow(names, "", outcome))
    requires after == if r.Some? then before + [[names[i], r.value]] else before
    ensures after == start + Gather(Indices(i + 1), ResultRow(names, "", outcome))
  {
    if r.Some? {
      assert "" + r.value == r.value;
    }
    ResultRowStep(start, names, "", outcome, i, r, before, after);
  }

  /** One step of a loop that processes the names in a given order (task
      completion order) and writes each name's row as soon as it is known. */
  lemma ResultRowStepAt(start: seq<Row>, names: seq<string>, scheme: string, outcome: string -> Option<string>,
                        order: seq<nat>, j: nat, r: Option<string>, before: seq<Row>, after: seq<Row>)
    requires j < |order| && order[j] < |names| && r == outcome(names[order[j]])
    requires before == start + Gather(order[..j], ResultRow(names, scheme, outcome))
    requires after == if r.Some? then before + [[names[order[j]], scheme + r.value]] else before
    ensures after == start + Gather(order[..j + 1], ResultRow(names, scheme, outcome))
  {
    var rowOf := ResultRow(names, scheme, outcome);
    assert order[..j + 1][..j] == order[..j];
    AppendAssoc(start, Gather(order[..j], rowOf), rowOf(order[j]));
  }

  /** Whatever the order the names are processed in, one row
      `[name, scheme + host]` is added per name whose outcome is a host, and
      nothing else. */
  lemma ResultRowsAnyOrder(names: seq<string>, scheme: string, outcome: string -> Option<string>,
                           order: seq<nat>, r: Row)
    requires IsOrdering(order, |names|)
    ensures |Gather(order, ResultRow(names, scheme, outcome))| <= |names|
    ensures r in Gather(order, ResultRow(names, scheme, outcome)) <==>
      exists i :: 0 <= i < |names| && outcome(names[i]).Some? && r == [names[i], scheme + outcome(names[i]).value]
  {
    var rowOf := ResultRow(names, scheme, outcome);
    GatherPermutation(order, Indices(|names|), rowOf);
    ResultRowsSpec(names, scheme, outcome, |names|, r);
    var a, b := Gather(order, rowOf), Gather(Indices(|names|), rowOf);
    assert |a| == |multiset(a)| == |multiset(b)| == |b|;
    assert r in a <==> r in multiset(a);
    assert r in b <==> r in multiset(b);
  }

  /** Processing the first n names in input order adds exactly one row
      `[name, scheme + host]` per name whose outcome is a host, in input
      order, and nothing else. */
  lemma ResultRowsSpec(names: seq<string>, scheme: string, outcome: string -> Option<string>, n: nat, r: Row)
    requires n <= |names|
    ensures |Gather(Indices(n), ResultRow(names, scheme, outcome))| <= n
    ensures r in Gather(Indices(n), ResultRow(names, scheme, outcome)) <==>
      exists i :: 0 <= i < n && outcome(names[i]).Some? && r == [names[i], scheme + outcome(names[i]).value]
  {
    var found := ResultRow(names, scheme, outcome);
    ResultRowsCount(names, scheme, outcome, n);
    GatherIndicesMembers(n, found, r);
    if r in Gather(Indices(n), found) {
      var i :| 0 <= i < n && r in found(i);
      assert outcome(names[i]).Some? && r == [names[i], scheme + outcome(names[i]).value];
    }
    if exists i :: 0 <= i < n && outcome(names[i]).Some? && r == [names[i], scheme + outcome(names[i]).value] {
      var i :| 0 <= i < n && outcome(names[i]).Some? && r == [names[i], scheme + outcome(names[i]).value];
      assert r in found(i);
    }
  }

  lemma {:induction false} ResultRowsCount(names: seq<string>, scheme: string, outcome: string -> Option<string>, n: nat)
    requires n <= |names|
    ensures |Gather(Indices(n), ResultRow(names, scheme, outcome))| <= n
    decreases n
  {
    if n > 0 {
      GatherIndicesSnoc(n - 1, ResultRow(names, scheme, outcome));
      ResultRowsCount(names, scheme, outcome, n - 1);
    }
  }

  /** The simple variant's `get_processed_names`: the first cell of every
      non-empty row after the first (the first row is taken as the header). */
  function FirstCells(rows: seq<Row>): set<string>
  {
    set k | 1 <= k < |rows| && rows[k] != [] :: rows[k][0]
  }

  /** Reading loop of `get_processed_names`: skips one row, then adds the
      first cell of every non-empty row. */
  method ReadFirstCells(f: CsvFile) returns (processed: set<string>)
    requires f.Valid()
    ensures processed == FirstCells(f.rows)
  {
    processed := {};
    if !f.present {
      return;
    }
    var rows := f.rows;
    var i := 1;
    while i < |rows|
      invariant 1 <= i <= |rows| || rows == []
      invariant processed == set k | 1 <= k < i && k < |rows| && rows[k] != [] :: rows[k][0]
    {
      if rows[i] != [] {
        processed := processed + {rows[i][0]};
      }
      i := i + 1;
    }
  }

  /** A written name is read back as processed, unless it was appended to an
      existing empty file, where its row is taken for the header. */
  lemma WrittenNameIsProcessed(present: bool, rows: seq<Row>, name: string, domain: string)
    requires !present ==> rows == []
    requires present ==> rows != []
    ensures name in FirstCells(AppendedSite(present, rows, [name, domain]))
  {
    var r := AppendedSite(present, rows, [name, domain]);
    var last := |r| - 1;
    assert 1 <= last && r[last] == [name, domain] && r[last] != [];
    assert r[last][0] in FirstCells(r);
  }

  /** The header is never counted: a new file with one result reads back as
      exactly that result's name. */
  lemma HeaderNotCounted(name: string, domain: string)
    ensures FirstCells(AppendedSite(false, [], [name, domain])) == {name}
  {
    var r := AppendedSite(false, [], [name, domain]);
    assert r == [HEADER, [name, domain]];
    assert r[1][0] in FirstCells(r);
    assert forall x :: x in FirstCells(r) ==> x == name;
  }

  /** The one case where a written name is lost for resuming: an existing
      but empty file. */
  lemma EmptyFileLosesFirstResult(name: string, domain: string)
    ensures FirstCells(AppendedSite(true, [], [name, domain])) == {}
  {
  }

  // ---------------------------------------------------------------------------
  // Name loading that skips a leading "name" header (simple, incremental and
  // render variants).
  // ---------------------------------------------------------------------------

  /** Row i contributes a name: its first cell is not blank, and it is not a
      first row whose stripped, lowered first cell is "name". */
  predicate KeptNameRow(rows: seq<Row>, i: nat)
    requires i < |rows|
  {
    rows[i] != [] && Strip(rows[i][0]) != ""
    && !(i == 0 && Lower(Strip(rows[i][0])) == "name")
  }

  /** The names the loader keeps from rows, stripped, in file order. */
  function NamesSkippingHeader(rows: seq<Row>): seq<string>
    decreases |rows|
  {
    if rows == [] then []
    else
      var i := |rows| - 1;
      var init := NamesSkippingHeader(rows[..i]);
      if KeptNameRow(rows, i) then init + [Strip(rows[i][0])] else init
  }
  /** The loading loop: enumerate the rows, skip blank first cells and a
      "name" header at row 0, and keep the stripped first cell. */
  method LoadNamesSkippingHeader(rows: seq<Row>) returns (names: seq<string>)
    ensures names == NamesSkippingHeader(rows)
  {
    names := [];
    for i := 0 to |rows|
      invariant names == NamesSkippingHeader(rows[..i])
    {
      assert rows[..i + 1][..i] == rows[..i];
      var row := rows[i];
      if row != [] && Strip(row[0]) != "" {
        if i == 0 && Lower(Strip(row[0])) == "name" {
          continue;
        }
        names := names + [Strip(row[0])];
      }
    }
    assert rows[..|rows|] == rows;
  }


  /** Row k is kept and yields the name n. */
  predicate NameFromRow(rows: seq<Row>, k: int, n: string) {
    0 <= k < |rows| && KeptNameRow(rows, k) && Strip(rows[k][0]) == n
  }

  /** Every loaded name is stripped and not blank. */
  lemma {:induction false} LoadedNamesClean(rows: seq<Row>)
    ensures forall n :: n in NamesSkippingHeader(rows) ==> n != "" && Strip(n) == n
    decreases |rows|
  {
    if rows != [] {
      var i := |rows| - 1;
      var init := rows[..i];
      LoadedNamesClean(init);
      forall n | n in NamesSkippingHeader(rows) ensures n != "" && Strip(n) == n {
        if n !in NamesSkippingHeader(init) {
          assert KeptNameRow(rows, i) && n == Strip(rows[i][0]);
          StripIdempotent(rows[i][0]);
        }
      }
    }
  }

  /** Every loaded name comes from a kept row. */
  lemma {:induction false} LoadedNamesFromRows(rows: seq<Row>)
    ensures forall n :: n in NamesSkippingHeader(rows) ==> exists k :: NameFromRow(rows, k, n)
    decreases |rows|
  {
    if rows != [] {
      var i := |rows| - 1;
      var init := rows[..i];
      LoadedNamesFromRows(init);
      forall n | n in NamesSkippingHeader(rows) ensures exists k :: NameFromRow(rows, k, n) {
        if n in NamesSkippingHeader(init) {
          var k :| NameFromRow(init, k, n);
          assert init[k] == rows[k];
          assert NameFromRow(rows, k, n);
        } else {
          assert NameFromRow(rows, i, n);
        }
      }
    }
  }

  /** Every kept row's name is loaded: only a first row reading "name" (in
      any case, with any surrounding space) and rows with a blank first cell
      yield nothing. */
  lemma {:induction false} KeptRowsLoaded(rows: seq<Row>)
    ensures forall k :: 0 <= k < |rows| && KeptNameRow(rows, k) ==> Strip(rows[k][0]) in NamesSkippingHeader(rows)
    decreases |rows|
  {
    if rows != [] {
      var i := |rows| - 1;
      var init := rows[..i];
      KeptRowsLoaded(init);
      forall k | 0 <= k < i && KeptNameRow(rows, k) ensures Strip(rows[k][0]) in NamesSkippingHeader(rows) {
        assert init[k] == rows[k];
        assert KeptNameRow(init, k);
      }
    }
  }

  // ---------------------------------------------------------------------------
  // Name loading that always skips the first row (enhanced and bing
  // variants): every non-empty row yields its stripped first cell, even a
  // blank one.
  // ---------------------------------------------------------------------------

  /** Stripped first cells of the non-empty rows after the first, in order. */
  function NamesAfterFirstRow(rows: seq<Row>): seq<string>
    decreases |rows|
  {
    if |rows| <= 1 then []
    else
      var i := |rows| - 1;
      var init := NamesAfterFirstRow(rows[..i]);
      if rows[i] != [] then init + [Strip(rows[i][0])] else init
  }

  /** The loop of `load_names`: skip one row, then keep the stripped first
      cell of every non-empty row. */
  method LoadNamesAfterFirstRow(rows: seq<Row>) returns (names: seq<string>)
    ensures names == NamesAfterFirstRow(rows)
  {
    names := [];
    if rows == [] {
      return;
    }
    for i := 1 to |rows|
      invariant names == NamesAfterFirstRow(rows[..i])
    {
      assert rows[..i + 1][..i] == rows[..i];
      var row := rows[i];
      if row != [] {
        names := names + [Strip(row[0])];
      }
    }
    assert rows[..|rows|] == rows;
  }

  /** Every non-empty row after the first yields its stripped first cell,
      blank or not, and nothing else is loaded. */
  lemma {:induction false} NamesAfterFirstRowSpec(rows: seq<Row>)
    ensures forall k :: 1 <= k < |rows| && rows[k] != [] ==> Strip(rows[k][0]) in NamesAfterFirstRow(rows)
    ensures forall n :: n in NamesAfterFirstRow(rows) ==> exists k :: 1 <= k < |rows| && rows[k] != [] && Strip(rows[k][0]) == n
    decreases |rows|
  {
    if |rows| > 1 {
      var i := |rows| - 1;
      var init := rows[..i];
      NamesAfterFirstRowSpec(init);
      forall k | 1 <= k < i && rows[k] != [] ensures Strip(rows[k][0]) in NamesAfterFirstRow(rows) {
        assert init[k] == rows[k];
      }
      forall n | n in NamesAfterFirstRow(rows) ensures exists k :: 1 <= k < |rows| && rows[k] != [] && Strip(rows[k][0]) == n {
        if n in NamesAfterFirstRow(init) {
          var k :| 1 <= k < |init| && init[k] != [] && Strip(init[k][0]) == n;
          assert init[k] == rows[k];
        }
      }
    }
  }

  /** A row after the first whose first cell is blank contributes the empty
      name: blank names are not filtered out. */
  lemma BlankNameKept(rows: seq<Row>, k: nat)
    requires 1 <= k < |rows| && rows[k] != [] && AllSpace(rows[k][0])
    ensures "" in NamesAfterFirstRow(rows)
  {
    NamesAfterFirstRowSpec(rows);
    StripEmptyIffBlank(rows[k][0]);
  }

  // ---------------------------------------------------------------------------
  // Resuming.
  // ---------------------------------------------------------------------------

  /** `[n for n in names if n not in processed]`. */
  function Remaining(names: seq<string>, processed: set<string>): seq<string>
  {
    Without(names, processed)
  }

  /** The remaining names are exactly the unprocessed input names, in input
      order: a prefix of the input yields a prefix of the remaining list. */
  lemma RemainingSpec(names: seq<string>, processed: set<string>, i: nat)
    requires i <= |names|
    ensures forall n :: n in Remaining(names, processed) <==> n in names && n !in processed
    ensures IsPrefix(Remaining(names[..i], processed), Remaining(names, processed))
    ensures processed == {} ==> Remaining(names, processed) == names
  {
    WithoutMembers(names, processed);
    assert names == names[..i] + names[i..];
    WithoutAppend(names[..i], names[i..], processed);
    PrefixOfAppend(Without(names[..i], processed), Without(names[i..], processed));
    WithoutNothing(names);
  }
}
