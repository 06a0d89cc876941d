/**
 * The enrichment run inside `main` (downloader.py:122-156): the header,
 * the row-by-row loop with its power-of-two progress log, and the summary.
 */
module Pipeline {
  import opened Wrappers
  import opened Powers
  import opened Fetch
  import opened Rows

  /** The row numbers "Processed row n" is logged for, once n rows are done. */
  function Progress(n: nat): seq<nat>
  {
    if n == 0 then [] else Progress(n - 1) + (if IsPowerOfTwo(n) then [n] else [])
  }

  /** A row number is logged exactly when it is a power of two. */
  lemma {:induction false} ProgressMembers(n: nat)
    ensures forall x: int :: x in Progress(n) <==> 1 <= x <= n && PowerOfTwo(x)
  {
    if n > 0 {
      ProgressMembers(n - 1);
    }
  }

  /** The log is 1, 2, 4, ..., up to the largest power of two not above n. */
  lemma {:induction false} ProgressArePowers(n: nat)
    ensures |Progress(n)| == if n == 0 then 0 else Log2(n) + 1
    ensures forall i :: 0 <= i < |Progress(n)| ==> Progress(n)[i] == Pow2(i)
  {
    if n == 1 {
      assert Progress(1) == [1];
    } else if n > 1 {
      ProgressArePowers(n - 1);
      Log2Predecessor(n);
      if IsPowerOfTwo(n) {
        assert Progress(n) == Progress(n - 1) + [n];
        assert Pow2(Log2(n)) == n;
      } else {
        assert Progress(n) == Progress(n - 1);
      }
    }
  }

  lemma ProgressStrictlyIncreasing(n: nat)
    ensures forall i, j :: 0 <= i < j < |Progress(n)| ==> Progress(n)[i] < Progress(n)[j]
  {
    ProgressArePowers(n);
    forall i, j | 0 <= i < j < |Progress(n)|
      ensures Progress(n)[i] < Progress(n)[j]
    {
      Pow2StrictlyIncreasing(i, j);
    }
  }

  /** What a run writes, row by row, and the exception that ended it early. */
  datatype Enrichment = Enrichment(written: seq<map<string, string>>, fault: Option<Fault>)

  /** The loop on values: each row gets its abstract and is written, in
      order, until a row raises. */
  function EnrichValues(services: Services, rows: seq<map<string, string>>): Enrichment
  {
    if rows == [] then Enrichment([], None)
    else
      match UpdatedRow(services, rows[0])
      case Failure(e) => Enrichment([], Some(e))
      case Success(updated) =>
        var rest := EnrichValues(services, rows[1..]);
        Enrichment([updated] + rest.written, rest.fault)
  }

  /** Written row i is input row i with its abstract; rows are written up to
      the first one that raises, and that one's exception ends the run. */
  lemma {:induction false} EnrichValuesInOrder(services: Services, rows: seq<map<string, string>>)
    ensures var e := EnrichValues(services, rows);
      && |e.written| <= |rows|
      && (forall i :: 0 <= i < |e.written| ==>
            UpdatedRow(services, rows[i]) == Success(e.written[i]))
      && (e.fault.None? ==> |e.written| == |rows|)
      && (e.fault.Some? ==>
            |e.written| < |rows| &&
            UpdatedRow(services, rows[|e.written|]) == Failure(e.fault.value))
  {
    if rows != [] && UpdatedRow(services, rows[0]).Success? {
      EnrichValuesInOrder(services, rows[1..]);
    }
  }

  /** The run completes, one output row per input row, exactly when no row
      raises; a row whose page cannot be fetched or has no abstract still
      yields a row. */
  lemma EnrichValuesComplete(services: Services, rows: seq<map<string, string>>)
    ensures EnrichValues(services, rows).fault.None? <==>
              forall i :: 0 <= i < |rows| ==> UpdatedRow(services, rows[i]).Success?
    ensures EnrichValues(services, rows).fault.None? ==>
              |EnrichValues(services, rows).written| == |rows|
  {
    EnrichValuesInOrder(services, rows);
  }

  /** When every row has a PMID and no GET raises, no row is dropped. */
  lemma NoRowDropped(services: Services, rows: seq<map<string, string>>)
    requires forall i :: 0 <= i < |rows| ==> PmidFieldname in rows[i]
    requires forall i :: 0 <= i < |rows| ==> !services.get(PmidUrl(rows[i][PmidFieldname])).Raised?
    ensures EnrichValues(services, rows).fault == None
    ensures |EnrichValues(services, rows).written| == |rows|
  {
    EnrichValuesComplete(services, rows);
  }

  /** The rows already written, followed by what the rest of the run writes. */
  function Prepend(written: seq<map<string, string>>, rest: Enrichment): Enrichment {
    Enrichment(written + rest.written, rest.fault)
  }

  /** One step of the loop: the run over rows i.. starts with row i. */
  lemma EnrichValuesStep(services: Services, rows: seq<map<string, string>>, i: nat)
    requires i < |rows|
    ensures UpdatedRow(services, rows[i]).Failure? ==>
              EnrichValues(services, rows[i..]) ==
              Enrichment([], Some(UpdatedRow(services, rows[i]).error))
    ensures UpdatedRow(services, rows[i]).Success? ==>
              EnrichValues(services, rows[i..]) ==
              Prepend([UpdatedRow(services, rows[i]).value], EnrichValues(services, rows[i + 1..]))
  {
    assert rows[i..][0] == rows[i];
    assert rows[i..][1..] == rows[i + 1..];
  }

  /** The converse of EnrichValuesInOrder: rows written in order up to the
      first that raises determine the run. */
  lemma {:induction false} EnrichValuesDetermined(services: Services, rows: seq<map<string, string>>,
                                                  written: seq<map<string, string>>, fault: Option<Fault>)
    requires |written| <= |rows|
    requires forall i :: 0 <= i < |written| ==> UpdatedRow(services, rows[i]) == Success(written[i])
    requires fault.None? ==> |written| == |rows|
    requires fault.Some? ==> |written| < |rows| && UpdatedRow(services, rows[|written|]) == Failure(fault.value)
    ensures EnrichValues(services, rows) == Enrichment(written, fault)
  {
    if rows != [] && written != [] {
      assert UpdatedRow(services, rows[0]) == Success(written[0]);
      EnrichValuesDetermined(services, rows[1..], written[1..], fault);
      assert [written[0]] + written[1..] == written;
    }
  }

  /** The contents of the row dicts. */
  ghost function FieldsOf(rows: seq<Row>): (c: seq<map<string, string>>)
    reads rows
    ensures |c| == |rows| && forall i :: 0 <= i < |rows| ==> c[i] == rows[i].fields
  {
    seq(|rows|, i requires 0 <= i < |rows| reads rows => rows[i].fields)
  }

  /** The `_log.info` at a row number: logged when it is a power of two. */
  method LogProgress(progress: seq<nat>, rowNumber: nat) returns (logged: seq<nat>)
    requires rowNumber >= 1 && progress == Progress(rowNumber - 1)
    ensures logged == Progress(rowNumber)
  {
    logged := progress;
    if IsPowerOfTwo(rowNumber) {
      logged := logged + [rowNumber];
    }
  }

  /** The `for row_index, updated_row in enumerate(...)` loop: each row is
      updated in place and written, progress is logged at power-of-two row
      numbers and `row_count` follows the last row number. An exception from
      a row leaves the loop with the rows before it written. */
  method Enrich(services: Services, rows: seq<Row>)
    returns (written: seq<map<string, string>>, progress: seq<nat>, rowCount: nat, fault: Option<Fault>)
    requires forall i, j :: 0 <= i < |rows| && 0 <= j < |rows| && i != j ==> rows[i] != rows[j]
    modifies rows
    ensures EnrichValues(services, old(FieldsOf(rows))) == Enrichment(written, fault)
    ensures rowCount == |written| <= |rows| && progress == Progress(rowCount)
    ensures forall i :: rowCount <= i < |rows| ==> rows[i].fields == old(rows[i].fields)
  {
    ghost var inputs := FieldsOf(rows);
    written, progress, rowCount, fault := [], [], 0, None;
    var rowIndex := 0;
    while rowIndex < |rows|
      invariant rowIndex <= |rows| && rowCount == rowIndex == |written|
      invariant progress == Progress(rowCount)
      invariant forall i :: 0 <= i < rowIndex ==> UpdatedRow(services, inputs[i]) == Success(written[i])
      invariant forall i :: rowIndex <= i < |rows| ==> rows[i].fields == inputs[i]
    {
      label BeforeUpdate:
      var updated := UpdateRow(services, rows[rowIndex]);
      assert forall i :: rowIndex < i < |rows| ==> rows[i].fields == old@BeforeUpdate(rows[i].fields);
      if updated.Failure? {
        fault := Some(updated.error);
        EnrichValuesDetermined(services, inputs, written, fault);
        return;
      }
      var rowNumber := rowIndex + 1;
      written := written + [updated.value.fields];
      progress := LogProgress(progress, rowNumber);
      rowCount := rowNumber;
      rowIndex := rowIndex + 1;
    }
    EnrichValuesDetermined(services, inputs, written, fault);
  }

  /** `duration / row_count`, logged only when a row was processed. */
  function ProcessRate(duration: real, rowCount: nat): (rate: Option<real>)
    ensures rate.Some? <==> rowCount > 0
    ensures rate.Some? ==> rate.value * rowCount as real == duration
  {
    if rowCount > 0 then Some(duration / rowCount as real) else None
  }

  /** The closing log of a run that finished: rows processed and, if any,
      the rate. */
  datatype Summary = Summary(rowCount: nat, rate: Option<real>)

  /** What a run leaves behind: the header written, the rows written, the
      progress log, and the summary or the exception that ended the run. */
  datatype Report = Report(
    header: Option<seq<string>>,
    written: seq<map<string, string>>,
    progress: seq<nat>,
    outcome: Result<Summary, Fault>)

  /** `main` past its I/O: `readerFieldnames` is what the CSV reader found,
      `rows` the dicts it yields and `duration` the elapsed clock time. */
  method Run(services: Services, readerFieldnames: Option<seq<string>>, rows: seq<Row>, duration: real)
    returns (report: Report)
    requires forall i, j :: 0 <= i < |rows| && 0 <= j < |rows| && i != j ==> rows[i] != rows[j]
    modifies rows
    ensures readerFieldnames.None? ==>
              report == Report(None, [], [], Failure(NoFieldnames)) &&
              forall i :: 0 <= i < |rows| ==> rows[i].fields == old(rows[i].fields)
    ensures readerFieldnames.Some? ==>
              var e := EnrichValues(services, old(FieldsOf(rows)));
              && report.header == Some(OutputFieldnames(readerFieldnames.value))
              && report.written == e.written
              && report.progress == Progress(|e.written|)
              && report.outcome == (if e.fault.Some? then Failure(e.fault.value)
                                    else Success(Summary(|e.written|, ProcessRate(duration, |e.written|))))
  {
    if readerFieldnames.None? {
      return Report(None, [], [], Failure(NoFieldnames));
    }
    var fieldnames := readerFieldnames.value;
    fieldnames := fieldnames + [AbstractFieldname];
    var written, progress, rowCount, fault := Enrich(services, rows);
    if fault.Some? {
      return Report(Some(fieldnames), written, progress, Failure(fault.value));
    }
    report := Report(Some(fieldnames), written, progress, Success(Summary(rowCount, ProcessRate(duration, rowCount))));
  }

  /** Two PMIDs, "111" with an abstract on its page and "222" whose page
      answers with an error status or whose GET raises. */
  function ScenarioServices(text: string, secondRaises: bool): Services {
    Services(
      url => if url == PmidUrl("111") then Responded(false, "<div id=abstract>")
             else if secondRaises then Raised
             else Responded(true, ""),
      html => Some(text))
  }

  const ScenarioRows: seq<map<string, string>> := [map[PmidFieldname := "111"], map[PmidFieldname := "222"]]

  /** An error status is absorbed: both rows are written, the second with
      the "could not download page" sentinel. */
  lemma ScenarioErrorStatusDegrades(text: string)
    ensures EnrichValues(ScenarioServices(text, false), ScenarioRows) ==
      Enrichment([map[PmidFieldname := "111", AbstractFieldname := text],
                  map[PmidFieldname := "222", AbstractFieldname := CouldNotDownloadPage]], None)
  {
    var services := ScenarioServices(text, false);
    assert PmidUrl("222") != PmidUrl("111") by {
      if PmidUrl("222") == PmidUrl("111") { PmidUrlInjective("222", "111"); }
    }
    assert AbstractForRow(services, ScenarioRows[0]) == Success(text);
    assert AbstractForRow(services, ScenarioRows[1]) == Success(CouldNotDownloadPage);
    EnrichValuesStep(services, ScenarioRows, 0);
    EnrichValuesStep(services, ScenarioRows, 1);
    assert ScenarioRows[2..] == [];
    assert ScenarioRows[0..] == ScenarioRows;
  }

  /** An exception from the GET itself is not absorbed: only the first row
      is written and the run ends with that exception. */
  lemma ScenarioRaisingGetAborts(text: string)
    ensures EnrichValues(ScenarioServices(text, true), ScenarioRows) ==
      Enrichment([map[PmidFieldname := "111", AbstractFieldname := text]],
                 Some(TransportError(PmidUrl("222"))))
  {
    var services := ScenarioServices(text, true);
    assert PmidUrl("222") != PmidUrl("111") by {
      if PmidUrl("222") == PmidUrl("111") { PmidUrlInjective("222", "111"); }
    }
    assert AbstractForRow(services, ScenarioRows[0]) == Success(text);
    assert AbstractForRow(services, ScenarioRows[1]) == Failure(TransportError(PmidUrl("222")));
    EnrichValuesStep(services, ScenarioRows, 0);
    EnrichValuesStep(services, ScenarioRows, 1);
    assert ScenarioRows[0..] == ScenarioRows;
  }
}
