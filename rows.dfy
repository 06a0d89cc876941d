/**
 * Rows and the output header: `update_row` (downloader.py:72-76) and the
 * field names handed to the CSV writer (downloader.py:133-134).
 */
module Rows {
  import opened Wrappers
  import opened Fetch

  const PmidFieldname: string := "PMID"
  const AbstractFieldname: string := "abstract"

  /** A row as `csv.DictReader` yields it: a dict from field name to value,
      updated in place by `update_row`. */
  class Row {
    var fields: map<string, string>

    constructor (fields: map<string, string>)
      ensures this.fields == fields
    {
      this.fields := fields;
    }
  }

  /** The value `update_row` stores: `row["PMID"]` raises `KeyError` when the
      field is absent, otherwise the abstract is fetched for that PMID. */
  function AbstractForRow(services: Services, fields: map<string, string>): (r: Result<string, Fault>)
    ensures PmidFieldname !in fields ==> r == Failure(MissingField(PmidFieldname))
    ensures PmidFieldname in fields ==> r == GetPmidAbstract(services, fields[PmidFieldname])
  {
    if PmidFieldname in fields then GetPmidAbstract(services, fields[PmidFieldname])
    else Failure(MissingField(PmidFieldname))
  }

  /** `row[ABSTRACT_FIELDNAME] = abstract` on the dict's contents. */
  function WithAbstract(fields: map<string, string>, text: string): map<string, string>
  {
    fields[AbstractFieldname := text]
  }

  /** The updated row holds the abstract under "abstract", overwriting any
      earlier value, and every other field exactly as before. */
  lemma WithAbstractFields(fields: map<string, string>, text: string)
    ensures WithAbstract(fields, text).Keys == fields.Keys + {AbstractFieldname}
    ensures WithAbstract(fields, text)[AbstractFieldname] == text
    ensures forall k :: k in fields && k != AbstractFieldname ==>
              WithAbstract(fields, text)[k] == fields[k]
    ensures AbstractFieldname in fields ==> |WithAbstract(fields, text)| == |fields|
    ensures AbstractFieldname !in fields ==> |WithAbstract(fields, text)| == |fields| + 1
  {
  }

  /** The dict `update_row` leaves behind, or the exception it raises. */
  function UpdatedRow(services: Services, fields: map<string, string>): (r: Result<map<string, string>, Fault>)
    ensures PmidFieldname !in fields ==> r == Failure(MissingField(PmidFieldname))
    ensures PmidFieldname in fields ==>
              (r.Failure? <==> GetPmidAbstract(services, fields[PmidFieldname]).Failure?)
    ensures r.Failure? ==> r.error == AbstractForRow(services, fields).error
    ensures r.Success? ==>
              && r.value.Keys == fields.Keys + {AbstractFieldname}
              && r.value[AbstractFieldname] == GetPmidAbstract(services, fields[PmidFieldname]).value
              && (forall k :: k in fields && k != AbstractFieldname ==> r.value[k] == fields[k])
  {
    match AbstractForRow(services, fields)
    case Failure(e) => Failure(e)
    case Success(text) => Success(WithAbstract(fields, text))
  }

  /** `update_row`: reads the PMID, fetches its abstract and stores it in the
      same dict, which it returns. When an exception escapes, the dict has
      not been touched. */
  method UpdateRow(services: Services, row: Row) returns (r: Result<Row, Fault>)
    modifies row
    ensures UpdatedRow(services, old(row.fields)).Success? ==>
              r == Success(row) && row.fields == UpdatedRow(services, old(row.fields)).value
    ensures UpdatedRow(services, old(row.fields)).Failure? ==>
              r == Failure(UpdatedRow(services, old(row.fields)).error) && row.fields == old(row.fields)
  {
    if PmidFieldname !in row.fields {
      return Failure(MissingField(PmidFieldname));
    }
    var pmid := row.fields[PmidFieldname];
    var fetched := GetPmidAbstract(services, pmid);
    if fetched.Failure? {
      return Failure(fetched.error);
    }
    row.fields := row.fields[AbstractFieldname := fetched.value];
    r := Success(row);
  }

  /** `fieldnames = list(reader.fieldnames); fieldnames.append(ABSTRACT_FIELDNAME)`. */
  function OutputFieldnames(input: seq<string>): (r: seq<string>)
    ensures |r| == |input| + 1
    ensures r[..|input|] == input && r[|input|] == AbstractFieldname
    ensures multiset(r)[AbstractFieldname] == multiset(input)[AbstractFieldname] + 1
    ensures forall f :: f in r <==> f in input || f == AbstractFieldname
  {
    assert (input + [AbstractFieldname])[..|input|] == input;
    input + [AbstractFieldname]
  }

  /** A row whose fields all appear in the input header fits the output
      header once updated, so the writer finds no field it does not know. */
  lemma {:induction false} UpdatedRowFitsHeader(input: seq<string>, fields: map<string, string>, text: string)
    requires forall k :: k in fields ==> k in input
    ensures forall k :: k in WithAbstract(fields, text) ==> k in OutputFieldnames(input)
  {
    forall k | k in WithAbstract(fields, text)
      ensures k in OutputFieldnames(input)
    {
      if k != AbstractFieldname {
        assert k in fields;
      }
    }
  }
}
