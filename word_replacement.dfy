/** The ordered word-replacement rules applied to recognised text, and
    their storage as a two-column CSV file. */
module WordReplacement {
  import opened Results
  import opened Text

  /** One rule: every occurrence of `.0` becomes `.1`. */
  type Rule = (string, string)

  /** Every rule has a non-empty input, so no replacement ever uses an
      empty pattern. */
  predicate AllInputs(rules: seq<Rule>) {
    forall k :: 0 <= k < |rules| ==> rules[k].0 != ""
  }

  /** The text after applying `rules` one after another, each rule to the
      result of the previous ones. */
  function ApplyRules(rules: seq<Rule>, text: string): string
    requires AllInputs(rules)
  {
    if rules == [] then text
    else ApplyRules(rules[1..], ReplaceAll(text, rules[0].0, rules[0].1))
  }

  /** With no rules the text is unchanged. */
  lemma ApplyNoRules(text: string)
    ensures ApplyRules([], text) == text
  {
  }

  /** Applying is sequential: a rule added at the end works on the text
      the earlier rules produced. */
  lemma {:induction false} ApplySnoc(rules: seq<Rule>, rule: Rule, text: string)
    requires AllInputs(rules) && rule.0 != ""
    ensures AllInputs(rules + [rule])
    ensures ApplyRules(rules + [rule], text) == ReplaceAll(ApplyRules(rules, text), rule.0, rule.1)
    decreases |rules|
  {
    if rules == [] {
      assert [] + [rule] == [rule];
    } else {
      assert (rules + [rule])[1..] == rules[1..] + [rule];
      ApplySnoc(rules[1..], rule, ReplaceAll(text, rules[0].0, rules[0].1));
    }
  }

  /** Applying two rule lists in a row is applying their concatenation. */
  lemma {:induction false} ApplyAppend(first: seq<Rule>, second: seq<Rule>, text: string)
    requires AllInputs(first) && AllInputs(second)
    ensures AllInputs(first + second)
    ensures ApplyRules(first + second, text) == ApplyRules(second, ApplyRules(first, text))
    decreases |first|
  {
    if first != [] {
      assert (first + second)[1..] == first[1..] + second;
      ApplyAppend(first[1..], second, ReplaceAll(text, first[0].0, first[0].1));
    } else {
      assert first + second == second;
    }
  }

  /** Rules chain: the second rule sees what the first one wrote. */
  lemma ChainedRules()
    ensures ApplyRules([("A", "B"), ("B", "C")], "A") == "C"
  {
    var rules := [("A", "B"), ("B", "C")];
    assert ReplaceAll("A", "A", "B") == "B";
    assert ReplaceAll("B", "B", "C") == "C";
    assert rules[1..] == [("B", "C")];
  }

  /** A rule whose input does not occur in the text it meets changes
      nothing. */
  lemma AbsentRuleChangesNothing(rules: seq<Rule>, rule: Rule, text: string)
    requires AllInputs(rules) && rule.0 != ""
    requires !Contains(ApplyRules(rules, text), rule.0)
    ensures AllInputs(rules + [rule])
    ensures ApplyRules(rules + [rule], text) == ApplyRules(rules, text)
  {
    ApplySnoc(rules, rule, text);
    ReplaceAbsent(ApplyRules(rules, text), rule.0, rule.1);
  }

  /** `[(inp, out) for inp, out in rules if inp]`. */
  function KeepWithInput(rules: seq<Rule>): (r: seq<Rule>)
    ensures AllInputs(r)
    ensures forall x :: x in r <==> x in rules && x.0 != ""
    ensures |r| <= |rules|
  {
    if rules == [] then []
    else (if rules[0].0 != "" then [rules[0]] else []) + KeepWithInput(rules[1..])
  }

  /** The filter keeps relative order: filtering a concatenation is
      concatenating the filtered parts. */
  lemma {:induction false} KeepDistributes(a: seq<Rule>, b: seq<Rule>)
    ensures KeepWithInput(a + b) == KeepWithInput(a) + KeepWithInput(b)
    decreases |a|
  {
    if a == [] {
      assert [] + b == b;
    } else {
      assert (a + b)[1..] == a[1..] + b;
      KeepDistributes(a[1..], b);
    }
  }

  /** Rules that all have an input are kept exactly as given. */
  lemma {:induction false} KeepAllInputs(rules: seq<Rule>)
    requires AllInputs(rules)
    ensures KeepWithInput(rules) == rules
    decreases |rules|
  {
    if rules != [] {
      KeepAllInputs(rules[1..]);
      assert [rules[0]] + rules[1..] == rules;
    }
  }

  /** One record (line) of a CSV file: its fields, or a line the reader
      fails on. */
  datatype Line = Record(fields: seq<string>) | Unreadable

  /** A row as `csv.DictReader` yields it, seen through `row.get(name,
      "")`: a field is `None` when the row is too short for its column (the
      reader's `restval`), or `Broken` when reading the row raises. */
  datatype CsvRow = Row(input: Option<string>, output: Option<string>) | Broken

  /** The last position of `name` among the header names, or -1. */
  function LastIndex(header: seq<string>, name: string): (k: int)
    ensures -1 <= k < |header|
    ensures k >= 0 ==> header[k] == name
    ensures forall j :: k < j < |header| ==> header[j] != name
  {
    if header == [] then -1
    else if header[|header| - 1] == name then |header| - 1
    else LastIndex(header[..|header| - 1], name)
  }

  /** `row.get(name, "")` for the dictionary `DictReader` builds from
      `header` and `fields`: a name repeated in the header takes its last
      column, and a column the row does not reach holds `None`. */
  function Lookup(header: seq<string>, fields: seq<string>, name: string): Option<string> {
    var k := LastIndex(header, name);
    if k < 0 then Some("")
    else if k < |fields| then Some(fields[k])
    else None
  }

  /** The rows `DictReader` yields after the header record. */
  function DataRows(header: seq<string>, lines: seq<Line>): seq<CsvRow> {
    if lines == [] then []
    else match lines[0]
      case Unreadable => [Broken]
      case Record(fields) =>
        if fields == [] then DataRows(header, lines[1..])
        else [Row(Lookup(header, fields, "input"), Lookup(header, fields, "output"))]
             + DataRows(header, lines[1..])
  }

  /** `csv.DictReader` over the file's records: the first record names the
      columns, empty records are skipped. */
  function DictRows(lines: seq<Line>): seq<CsvRow> {
    if lines == [] then []
    else match lines[0]
      case Unreadable => [Broken]
      case Record(header) => DataRows(header, lines[1..])
  }

  /** The rule one row yields, if any: both fields stripped, and nothing
      when the stripped input is empty. */
  function RowRule(input: string, output: string): seq<Rule> {
    var i := Strip(input);
    if i != "" then [(i, Strip(output))] else []
  }

  /** A row that makes the loading loop raise: the reader fails, or a field
      is `None` and `.strip()` fails on it. */
  predicate Fails(row: CsvRow) {
    row.Broken? || row.input.None? || row.output.None?
  }

  /** The rules `_load_csv` keeps from `rows`: one rule per row in row
      order, until the first row that raises; the rules gathered before it
      are kept. */
  function Loaded(rows: seq<CsvRow>): (r: seq<Rule>)
    ensures AllInputs(r)
    ensures forall k :: 0 <= k < |r| ==> IsStripped(r[k].0) && IsStripped(r[k].1)
    ensures |r| <= |rows|
  {
    if rows == [] || Fails(rows[0]) then []
    else RowRule(rows[0].input.value, rows[0].output.value) + Loaded(rows[1..])
  }

  /** A row that loads extends the rules by that row's rule. */
  lemma {:induction false} LoadedSnoc(rows: seq<CsvRow>, row: CsvRow)
    requires forall k :: 0 <= k < |rows| ==> !Fails(rows[k])
    requires !Fails(row)
    ensures Loaded(rows + [row]) == Loaded(rows) + RowRule(row.input.value, row.output.value)
    decreases |rows|
  {
    if rows == [] {
      assert [] + [row] == [row];
    } else {
      assert (rows + [row])[1..] == rows[1..] + [row];
      LoadedSnoc(rows[1..], row);
    }
  }

  /** Loading the rows from `i` on: a failing row ends it, any other row
      contributes its rule before the rest. */
  lemma LoadedFrom(rules: seq<Rule>, rows: seq<CsvRow>, i: nat)
    requires i < |rows|
    ensures Fails(rows[i]) ==> Loaded(rows[i..]) == []
    ensures !Fails(rows[i]) ==>
              rules + Loaded(rows[i..])
              == rules + RowRule(rows[i].input.value, rows[i].output.value) + Loaded(rows[i + 1..])
  {
    assert rows[i..][1..] == rows[i + 1..];
  }

  /** Loading stops at the first row that raises and keeps what it had. */
  lemma {:induction false} LoadedStops(rows: seq<CsvRow>, i: nat)
    requires i < |rows| && Fails(rows[i])
    requires forall k :: 0 <= k < i ==> !Fails(rows[k])
    ensures Loaded(rows) == Loaded(rows[..i])
    decreases i
  {
    if i > 0 {
      LoadedStops(rows[1..], i - 1);
      assert rows[1..][..i - 1] == rows[..i][1..];
    }
  }

  /** The records `save_csv` writes: the header, then one record per rule
      in rule order. */
  function SaveRecords(rules: seq<Rule>): (r: seq<Line>)
    ensures |r| == |rules| + 1 && r[0] == Record(["input", "output"])
    ensures forall k :: 0 <= k < |rules| ==> r[k + 1] == Record([rules[k].0, rules[k].1])
  {
    if rules == [] then [Record(["input", "output"])]
    else SaveRecords(rules[..|rules| - 1]) + [Record([rules[|rules| - 1].0, rules[|rules| - 1].1])]
  }

  /** The rows that hold `rules`, a non-missing field for each value. */
  function RowsOf(rules: seq<Rule>): (r: seq<CsvRow>)
    ensures |r| == |rules|
  {
    if rules == [] then [] else [Row(Some(rules[0].0), Some(rules[0].1))] + RowsOf(rules[1..])
  }

  /** The rows read back from the records of saved rules are those rules,
      field for field. */
  lemma {:induction false} SavedRows(rules: seq<Rule>)
    ensures DataRows(["input", "output"], SaveRecords(rules)[1..]) == RowsOf(rules)
    decreases |rules|
  {
    var lines := SaveRecords(rules)[1..];
    if rules != [] {
      var rest := rules[1..];
      var tail := SaveRecords(rest)[1..];
      assert lines[0] == Record([rules[0].0, rules[0].1]);
      forall k | 0 <= k < |rest|
        ensures lines[1..][k] == tail[k]
      {
        assert lines[1..][k] == SaveRecords(rules)[k + 2];
        assert rest[k] == rules[k + 1];
        assert tail[k] == SaveRecords(rest)[k + 1];
      }
      assert lines[1..] == tail;
      SavedRows(rest);
    }
  }

  /** Saving and loading back yields the saved rules, each stripped, minus
      those whose stripped input is empty. */
  lemma {:induction false} LoadedRows(rules: seq<Rule>)
    ensures Loaded(RowsOf(rules)) == Normalized(rules)
    decreases |rules|
  {
    if rules != [] {
      var head := Row(Some(rules[0].0), Some(rules[0].1));
      assert RowsOf(rules) == [head] + RowsOf(rules[1..]);
      LoadedCons(head, RowsOf(rules[1..]));
      LoadedRows(rules[1..]);
    }
  }

  /** A row that loads, in front of other rows. */
  lemma LoadedCons(row: CsvRow, rows: seq<CsvRow>)
    requires !Fails(row)
    ensures Loaded([row] + rows) == RowRule(row.input.value, row.output.value) + Loaded(rows)
  {
    assert ([row] + rows)[1..] == rows;
  }

  /** The rules as a load would produce them from their own fields. */
  function Normalized(rules: seq<Rule>): seq<Rule> {
    if rules == [] then [] else RowRule(rules[0].0, rules[0].1) + Normalized(rules[1..])
  }

  /** Rules that are already stripped, each with an input, normalize to
      themselves. */
  lemma {:induction false} NormalizedStripped(rules: seq<Rule>)
    requires AllInputs(rules)
    requires forall k :: 0 <= k < |rules| ==> IsStripped(rules[k].0) && IsStripped(rules[k].1)
    ensures Normalized(rules) == rules
    decreases |rules|
  {
    if rules != [] {
      StripIdempotentStripped(rules[0].0);
      StripIdempotentStripped(rules[0].1);
      NormalizedStripped(rules[1..]);
      assert [rules[0]] + rules[1..] == rules;
    }
  }

  /** A stripped string strips to itself. */
  lemma StripIdempotentStripped(s: string)
    requires IsStripped(s)
    ensures Strip(s) == s
  {
    StripSurrounded("", s, "");
    assert "" + s + "" == s;
  }

  /** Saving and reading back: the CSV written for `rules` loads as their
      normalized form, and as `rules` itself when they came from a load. */
  lemma SaveLoadRoundTrip(rules: seq<Rule>)
    ensures Loaded(DictRows(SaveRecords(rules))) == Normalized(rules)
    ensures AllInputs(rules) && (forall k :: 0 <= k < |rules| ==> IsStripped(rules[k].0) && IsStripped(rules[k].1))
            ==> Loaded(DictRows(SaveRecords(rules))) == rules
  {
    var lines := SaveRecords(rules);
    assert DictRows(lines) == DataRows(["input", "output"], lines[1..]);
    SavedRows(rules);
    LoadedRows(rules);
    if AllInputs(rules) && (forall k :: 0 <= k < |rules| ==> IsStripped(rules[k].0) && IsStripped(rules[k].1)) {
      NormalizedStripped(rules);
    }
  }

  /** The CSV file the rules are kept in; `None` while it does not exist. */
  class CsvFile {
    var lines: Option<seq<Line>>

    constructor (lines: Option<seq<Line>>)
      ensures this.lines == lines
    {
      this.lines := lines;
    }
  }

  /** `WordReplacementManager`: the current rules and the file they are
      loaded from and saved to. */
  class WordReplacementManager {
    var rules: seq<Rule>
    const file: CsvFile

    /** Every stored rule has a non-empty input. */
    predicate Valid()
      reads this
    {
      AllInputs(rules)
    }

    /** Loads the rules when the file exists; otherwise starts with no rules
        and writes a file holding only the header. */
    constructor (file: CsvFile)
      modifies file
      ensures this.file == file && Valid()
      ensures old(file.lines).Some? ==> rules == Loaded(DictRows(old(file.lines).value)) && file.lines == old(file.lines)
      ensures old(file.lines).None? ==> rules == [] && file.lines == Some(SaveRecords([]))
    {
      this.file := file;
      var loaded := [];
      if file.lines.Some? {
        loaded := ReadRules(DictRows(file.lines.value));
      } else {
        file.lines := Some(SaveRecords([]));
      }
      rules := loaded;
    }

    /** `_load_csv`: replaces the rules by those the file yields; a file
        that cannot be opened yields none. */
    method LoadCsv()
      modifies this
      ensures Valid()
      ensures file.lines.Some? ==> rules == Loaded(DictRows(file.lines.value))
      ensures file.lines.None? ==> rules == []
    {
      var loaded := [];
      if file.lines.Some? {
        loaded := ReadRules(DictRows(file.lines.value));
      }
      rules := loaded;
    }

    /** `apply`: the text after each stored rule, in order. */
    method Apply(text: string) returns (r: string)
      requires Valid()
      ensures r == ApplyRules(rules, text)
    {
      r := text;
      var i := 0;
      while i < |rules|
        invariant 0 <= i <= |rules|
        invariant AllInputs(rules[i..])
        invariant ApplyRules(rules[i..], r) == ApplyRules(rules, text)
      {
        assert rules[i..][1..] == rules[i + 1..];
        r := ReplaceAll(r, rules[i].0, rules[i].1);
        i := i + 1;
      }
    }

    /** `get_rules`: a copy of the stored rules. */
    method GetRules() returns (rs: seq<Rule>)
      ensures rs == rules
    {
      rs := rules;
    }

    /** `set_rules`: stores the given rules that have an input, in order. */
    method SetRules(given: seq<Rule>)
      modifies this
      ensures rules == KeepWithInput(given) && Valid()
    {
      rules := KeepWithInput(given);
    }

    /** `save_csv`: writes the header and one record per rule. */
    method SaveCsv()
      modifies file
      ensures file.lines == Some(SaveRecords(rules))
    {
      var out := [Record(["input", "output"])];
      var i := 0;
      while i < |rules|
        invariant 0 <= i <= |rules|
        invariant out == SaveRecords(rules[..i])
      {
        assert rules[..i + 1][..i] == rules[..i];
        out := out + [Record([rules[i].0, rules[i].1])];
        i := i + 1;
      }
      assert rules[..i] == rules;
      file.lines := Some(out);
    }
  }

  /** The loop of `_load_csv` over the rows `DictReader` yields. */
  method ReadRules(rows: seq<CsvRow>) returns (rules: seq<Rule>)
    ensures rules == Loaded(rows)
  {
    rules := [];
    var i := 0;
    while i < |rows|
      invariant 0 <= i <= |rows|
      invariant Loaded(rows) == rules + Loaded(rows[i..])
    {
      LoadedFrom(rules, rows, i);
      if Fails(rows[i]) {
        return;
      }
      rules := rules + RowRule(rows[i].input.value, rows[i].output.value);
      i := i + 1;
    }
  }
}
