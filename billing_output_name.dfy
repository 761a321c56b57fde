/**
 * The output-name check of the consolidated billing report and the names of
 * the two CSV sheets derived from it.
 */
module BillingOutputName {
  import opened Common

  const CsvSuffix: string := ".csv"

  /** The two files the report is written to. */
  datatype Sheets = Sheets(sheet1: string, sheet2: string)

  /** The source raises "Output file name must be specified, .csv" both when no
      name is given and when the name fails the pattern. */
  datatype NameError = OutputNameRequired

  /** What `re.match('.+\.csv', name)` decides: some `j >= 1` where ".csv"
      starts, with no newline before it (`.` does not match a newline). The
      match is anchored at the start only. */
  ghost predicate MatchesCsvPattern(name: string) {
    exists j :: 1 <= j && OccursAt(name, CsvSuffix, j) && '\n' !in name[..j]
  }

  /** Left-to-right search for a match end `j >= i`, given that the text
      before `i - 1` holds no newline. */
  function CsvMatchFrom(name: string, i: nat): (r: bool)
    requires 1 <= i <= |name| + 1 && '\n' !in name[..i - 1]
    ensures r <==> exists j :: i <= j && OccursAt(name, CsvSuffix, j) && '\n' !in name[..j]
    decreases |name| - i
  {
    if i + |CsvSuffix| > |name| then false
    else if name[i - 1] == '\n' then
      assert forall j :: i <= j <= |name| ==> name[..j][i - 1] == '\n';
      false
    else
      assert name[..i] == name[..i - 1] + [name[i - 1]];
      if OccursAt(name, CsvSuffix, i) then true
      else
        var r := CsvMatchFrom(name, i + 1);
        assert r <== exists j :: i <= j && OccursAt(name, CsvSuffix, j) && '\n' !in name[..j] by {
          forall j | i <= j && OccursAt(name, CsvSuffix, j) && '\n' !in name[..j]
            ensures i + 1 <= j
          {
          }
        }
        r
  }

  /** Index of the first occurrence of ".csv" at or after `i`, or `|name|` when
      there is none. */
  function FirstCsvFrom(name: string, i: nat): (k: nat)
    requires i <= |name|
    ensures i <= k <= |name|
    ensures forall j :: i <= j < k ==> !OccursAt(name, CsvSuffix, j)
    ensures k < |name| ==> OccursAt(name, CsvSuffix, k)
    decreases |name| - i
  {
    if i == |name| || OccursAt(name, CsvSuffix, i) then i else FirstCsvFrom(name, i + 1)
  }

  /** `name.split('.csv')[0]`: the text before the first ".csv", or the whole
      name when ".csv" does not occur. */
  function TextBeforeCsv(name: string): (p: string)
    ensures |p| <= |name| && p == name[..|p|]
    ensures forall j :: 0 <= j < |p| ==> !OccursAt(name, CsvSuffix, j)
    ensures |p| < |name| ==> OccursAt(name, CsvSuffix, |p|)
  {
    name[..FirstCsvFrom(name, 0)]
  }

  /** Lines 78-90: validate the output name and derive the two sheet names. */
  function OutputSheets(output: Option<string>): (r: Result<Sheets, NameError>)
    ensures r.Ok? <==> output.Some? && MatchesCsvPattern(output.value)
    ensures r.Ok? ==>
      var p := TextBeforeCsv(output.value);
      StartsWith(output.value, p + CsvSuffix) &&
      r.value == Sheets(p + "_Sheet1.csv", p + "_Sheet2.csv")
  {
    match output
    case None => Err(OutputNameRequired)
    case Some(name) =>
      if CsvMatchFrom(name, 1) then
        var p := TextBeforeCsv(name);
        assert OccursAt(name, CsvSuffix, |p|);
        assert (p + CsvSuffix) == name[..|p| + |CsvSuffix|];
        Ok(Sheets(p + "_Sheet1.csv", p + "_Sheet2.csv"))
      else Err(OutputNameRequired)
  }

  /** The match is not anchored at the end: whatever follows the first ".csv"
      (".bak", another ".csv", ...) the name is accepted, and both sheets take
      the text before that first ".csv". */
  lemma {:induction false} SheetsFromFirstCsv(p: string, rest: string)
    requires |p| >= 1 && '\n' !in p
    requires forall j :: 0 <= j < |p| ==> !OccursAt(p + CsvSuffix + rest, CsvSuffix, j)
    ensures OutputSheets(Some(p + CsvSuffix + rest)) == Ok(Sheets(p + "_Sheet1.csv", p + "_Sheet2.csv"))
  {
    var name := p + CsvSuffix + rest;
    assert name[..|p|] == p;
    assert OccursAt(name, CsvSuffix, |p|);
    assert MatchesCsvPattern(name);
    assert |TextBeforeCsv(name)| == |p|;
  }

  /** ".csv" alone is refused: the pattern needs one character before the suffix. */
  lemma RejectsBareSuffix()
    ensures OutputSheets(Some(".csv")).Err?
  {
    var name := ".csv";
    forall j | 1 <= j ensures !OccursAt(name, CsvSuffix, j) {
    }
  }
}
