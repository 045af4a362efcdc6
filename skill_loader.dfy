/**
 * Parsing and validating one `SKILL.md` document: the `---` frontmatter block, its `key: value`
 * lines and nested `metadata:` block, the naming rules, and the loading of a whole skills
 * directory (given as a list of entries, so no file system is involved).
 */
module SkillLoader {
  import opened Wrappers
  import opened Text
  import opened Catalog

  /** The `InvalidDataException`s the loader throws, one per rule, in the order they are checked. */
  datatype SkillError =
    | MissingFrontmatter
    | MissingFrontmatterEnd
    | InvalidFrontmatterLine(line: string)
    | MissingName
    | NameLengthOutOfRange
    | NameDirectoryMismatch(directoryName: string)
    | NameHyphenAtEdge
    | NameConsecutiveHyphens
    | NameInvalidCharacters
    | MissingDescription
    | DescriptionTooLong
    | CompatibilityTooLong
  {
    /** An error raised by the metadata validation rather than by the parser. */
    predicate IsValidationError() {
      !(MissingFrontmatter? || MissingFrontmatterEnd? || InvalidFrontmatterLine?)
    }
  }

  const MaxNameLength := 64
  const MaxDescriptionLength := 1024
  const MaxCompatibilityLength := 500

  // -----------------------------------------------------------------------------------------------
  // Line helpers

  /** `SplitLines`: CRLF becomes LF, then the text is cut at every LF. One more line than there
      are LFs in the input, so never an empty array. */
  function SplitLines(content: string): (lines: seq<string>)
    ensures |lines| == Count('\n', content) + 1
    ensures forall k :: 0 <= k < |lines| ==> '\n' !in lines[k]
  {
    Split(ReplaceCrLf(content), '\n')
  }

  /** `IsFrontmatterDelimiter`: the line is `---` once trimmed. */
  predicate IsFrontmatterDelimiter(line: string) {
    Trim(line) == "---"
  }

  /** Without CRLF pairs, joining the lines back with LF gives the text. */
  lemma SplitLinesJoin(content: string)
    requires !ContainsCrLf(content)
    ensures Join("\n", SplitLines(content)) == content
  {
    ReplaceCrLfChangesIff(content);
    JoinSplit(content, '\n');
  }

  /** `---` with any white space around it is a delimiter. */
  lemma PaddedDelimiter(before: string, after: string)
    requires IsBlank(before) && IsBlank(after)
    ensures IsFrontmatterDelimiter(before + "---" + after)
  {
    TrimPadded(before, "---", after);
  }

  /** `Array.FindIndex(items, start, isMatch)`: the first index at or after `start` whose item
      satisfies `isMatch`, or -1. */
  function FindIndex<T>(items: seq<T>, start: nat, isMatch: T -> bool): (r: int)
    requires start <= |items|
    ensures r == -1 || start <= r < |items|
    decreases |items| - start
  {
    if start == |items| then -1
    else if isMatch(items[start]) then start
    else FindIndex(items, start + 1, isMatch)
  }

  /** `FindIndex` finds the first match, and -1 means there is none. */
  lemma {:induction false} FindIndexFindsFirst<T>(items: seq<T>, start: nat, isMatch: T -> bool)
    requires start <= |items|
    ensures var r := FindIndex(items, start, isMatch);
            && (r == -1 ==> forall k :: start <= k < |items| ==> !isMatch(items[k]))
            && (r >= 0 ==> isMatch(items[r]))
            && (r >= 0 ==> forall k :: start <= k < r ==> !isMatch(items[k]))
    decreases |items| - start
  {
    if start < |items| && !isMatch(items[start]) {
      FindIndexFindsFirst(items, start + 1, isMatch);
    }
  }

  /** `GetIndentation`, as a value: the length of the leading white space. */
  function Indentation(line: string): nat {
    SkipWhiteSpace(line, 0)
  }

  /** `GetIndentation`: counts leading white-space characters. */
  method GetIndentation(line: string) returns (count: nat)
    ensures count == Indentation(line)
  {
    count := 0;
    while count < |line| && IsWhiteSpace(line[count])
      invariant count <= |line|
      invariant SkipWhiteSpace(line, count) == Indentation(line)
    {
      count := count + 1;
    }
  }

  predicate IsQuote(c: char) {
    c == '"' || c == '\''
  }

  /** Wrapped in one matching pair of double or single quotes. */
  predicate IsQuoted(value: string) {
    |value| >= 2 && IsQuote(value[0]) && value[|value| - 1] == value[0]
  }

  /** `Unquote`: strips one pair of matching outer quotes, and only that. */
  function Unquote(value: string): string {
    if |value| >= 2 &&
       ((StartsWith(value, "\"") && EndsWith(value, "\"")) ||
        (StartsWith(value, "'") && EndsWith(value, "'")))
    then value[1..|value| - 1]
    else value
  }

  /** `Unquote` changes a value exactly when the value is wrapped in a matching pair of quotes,
      and then removes just that pair. */
  lemma UnquoteSpec(value: string)
    ensures Unquote(value) != value <==> IsQuoted(value)
    ensures IsQuoted(value) ==> value == [value[0]] + Unquote(value) + [value[0]]
  {
    if IsQuoted(value) {
      assert |Unquote(value)| < |value|;
    }
  }

  /** Quoting any text with either quote character and unquoting it gives the text back. */
  lemma UnquoteQuoted(q: char, text: string)
    requires IsQuote(q)
    ensures Unquote([q] + text + [q]) == text
  {
    var value := [q] + text + [q];
    assert value[1..|value| - 1] == text;
  }

  /** `SplitKeyValue`: cuts at the first colon; the key and the value are trimmed and the value
      unquoted. */
  function SplitKeyValue(line: string): (r: Result<(string, string), SkillError>)
    ensures r.Err? ==> r.error == InvalidFrontmatterLine(line)
  {
    var separatorIndex := IndexOf(line, ':');
    if separatorIndex <= 0 then Err(InvalidFrontmatterLine(line))
    else Ok((Trim(line[..separatorIndex]), Unquote(Trim(line[separatorIndex + 1..]))))
  }

  /** A line is rejected exactly when it has no colon or starts with one; an accepted key holds
      no colon. */
  lemma SplitKeyValueSpec(line: string)
    ensures var r := SplitKeyValue(line);
            && (r.Err? <==> ':' !in line || line[0] == ':')
            && (r.Ok? ==> ':' !in r.value.0)
  {
    IndexOfSpec(line, ':');
    var separatorIndex := IndexOf(line, ':');
    if separatorIndex > 0 {
      TrimKeepsOut(line[..separatorIndex], ':');
    }
  }

  /** The line is cut at its first colon: a colon-free key followed by a colon splits into the
      trimmed key and the trimmed, unquoted rest, whatever colons the rest holds. */
  lemma SplitKeyValueAtFirstColon(key: string, value: string)
    requires key != [] && ':' !in key
    ensures SplitKeyValue(key + ":" + value) == Ok((Trim(key), Unquote(Trim(value))))
  {
    var line := key + ":" + value;
    assert IndexOf(line, ':') == |key| by {
      IndexOfSpec(line, ':');
      assert line[|key|] == ':';
      assert line[..|key|] == key;
    }
    assert line[..|key|] == key;
    assert line[|key| + 1..] == value;
  }

  // -----------------------------------------------------------------------------------------------
  // The frontmatter block

  /** The two dictionaries `ParseFrontmatter` fills: the top-level fields, keyed case-insensitively
      (here by their upper-cased form), and the nested `metadata:` entries, keyed ordinally. */
  datatype Frontmatter = Frontmatter(fields: map<string, string>, metadata: map<string, string>)

  const EmptyFrontmatter := Frontmatter(map[], map[])

  predicate IsComment(trimmed: string) {
    StartsWith(trimmed, "#")
  }

  predicate IsMetadataHeader(trimmed: string) {
    EqualsIgnoreCase(trimmed, "metadata:")
  }

  /** What the two loops look at in one line: whether it is blank, how far it is indented, and,
      of its trimmed text, whether it is a comment, whether it is a `metadata:` header, and how it
      splits into a key and a value. Each is a function of the line alone. */
  datatype LineReading = LineReading(
    blank: bool,
    indentation: nat,
    comment: bool,
    header: bool,
    entry: Result<(string, string), SkillError>)

  function ReadLine(line: string): LineReading {
    var trimmed := Trim(line);
    LineReading(IsBlank(line), Indentation(line), IsComment(trimmed), IsMetadataHeader(trimmed),
                SplitKeyValue(trimmed))
  }

  function ReadLines(lines: seq<string>): (r: seq<LineReading>)
    ensures |r| == |lines|
  {
    if lines == [] then [] else [ReadLine(lines[0])] + ReadLines(lines[1..])
  }

  lemma {:induction false} ReadLinesAt(lines: seq<string>, k: nat)
    requires k < |lines|
    ensures ReadLines(lines)[k] == ReadLine(lines[k])
  {
    if k > 0 {
      ReadLinesAt(lines[1..], k - 1);
    }
  }

  /** `rs` holds the reading of each of `lines`. The link to a line is made only where that
      line's reading is written out, which keeps the other lines' readings folded. */
  ghost predicate ReadsLines(lines: seq<string>, rs: seq<LineReading>) {
    && |rs| == |lines|
    && forall k {:trigger ReadLine(lines[k])} :: 0 <= k < |lines| ==> rs[k] == ReadLine(lines[k])
  }

  lemma ReadLinesReads(lines: seq<string>)
    ensures ReadsLines(lines, ReadLines(lines))
  {
    forall k | 0 <= k < |lines| ensures ReadLines(lines)[k] == ReadLine(lines[k]) {
      ReadLinesAt(lines, k);
    }
  }

  /** A `metadata:` line hands the scan over to its block. */
  lemma ScanFieldsOpensBlock(rs: seq<LineReading>, i: nat, acc: Frontmatter)
    requires i < |rs| && !rs[i].blank && !rs[i].comment && rs[i].header
    ensures ScanFields(rs, i, acc) == ScanMetadata(rs, i + 1, rs[i].indentation, acc)
  {
  }

  /** Blank and comment lines at the top level are passed over. */
  lemma ScanFieldsSkipsLine(rs: seq<LineReading>, i: nat, acc: Frontmatter)
    requires i < |rs| && (rs[i].blank || rs[i].comment)
    ensures ScanFields(rs, i, acc) == ScanFields(rs, i + 1, acc)
  {
  }

  /** Any other top-level line is a field, stored under its case-folded name, or the error of
      reading it as one. */
  lemma ScanFieldsReadsField(rs: seq<LineReading>, i: nat, acc: Frontmatter)
    requires i < |rs| && !rs[i].blank && !rs[i].comment && !rs[i].header
    ensures rs[i].entry.Err? ==> ScanFields(rs, i, acc) == Err(rs[i].entry.error)
    ensures rs[i].entry.Ok? ==>
              ScanFields(rs, i, acc) ==
              ScanFields(rs, i + 1, acc.(fields := acc.fields[FoldCase(rs[i].entry.value.0) := rs[i].entry.value.1]))
  {
  }

  /** How line `k` was classified. */
  lemma ReadingOf(lines: seq<string>, rs: seq<LineReading>, k: nat)
    requires ReadsLines(lines, rs) && k < |lines|
    ensures rs[k].blank == IsBlank(lines[k]) && rs[k].indentation == Indentation(lines[k])
    ensures rs[k].comment == IsComment(Trim(lines[k])) && rs[k].header == IsMetadataHeader(Trim(lines[k]))
  {
    assert rs[k] == ReadLine(lines[k]);
  }

  /** What line `k` gives when read as a `key: value` pair. */
  lemma EntryOf(lines: seq<string>, rs: seq<LineReading>, k: nat)
    requires ReadsLines(lines, rs) && k < |lines|
    ensures rs[k].entry == SplitKeyValue(Trim(lines[k]))
  {
    assert rs[k] == ReadLine(lines[k]);
  }

  /** Top level of the scan, from line `i`: blank and comment lines are skipped, `metadata:` opens
      a nested block, any other line is a `key: value` field. */
  function ScanFields(rs: seq<LineReading>, i: nat, acc: Frontmatter): Result<Frontmatter, SkillError>
    decreases |rs| - i, 0
  {
    if i >= |rs| then Ok(acc)
    else
      var line := rs[i];
      if line.blank || line.comment then ScanFields(rs, i + 1, acc)
      else if line.header then ScanMetadata(rs, i + 1, line.indentation, acc)
      else
        match line.entry
        case Err(e) => Err(e)
        case Ok((key, value)) => ScanFields(rs, i + 1, acc.(fields := acc.fields[FoldCase(key) := value]))
  }

  /** Inside a `metadata:` block whose header is indented by `parent`, from line `j`: blank lines
      are skipped; the first other line indented no deeper than the header ends the block and is
      scanned again at the top level; deeper comment lines are skipped and deeper `key: value`
      lines become metadata entries. */
  function ScanMetadata(rs: seq<LineReading>, j: nat, parent: nat, acc: Frontmatter): Result<Frontmatter, SkillError>
    decreases |rs| - j, 1
  {
    if j >= |rs| then Ok(acc)
    else
      var line := rs[j];
      if line.blank then ScanMetadata(rs, j + 1, parent, acc)
      else if line.indentation <= parent then ScanFields(rs, j, acc)
      else if line.comment then ScanMetadata(rs, j + 1, parent, acc)
      else
        match line.entry
        case Err(e) => Err(e)
        case Ok((key, value)) => ScanMetadata(rs, j + 1, parent, acc.(metadata := acc.metadata[key := value]))
  }

  /** The value of a top-level field, looked up by its upper-cased key. */
  function Field(fields: map<string, string>, foldedKey: string): Option<string> {
    if foldedKey in fields then Some(fields[foldedKey]) else None
  }

  /** The record built from the scanned fields: a missing name or description is empty, other
      missing fields are absent; unknown fields are dropped. The keys are written upper-cased,
      as `FoldCase` leaves them (`FoldedKeys` below). */
  function ToSkillMetadata(fm: Frontmatter): SkillMetadata {
    SkillMetadata(
      Field(fm.fields, "NAME").GetOr(""),
      Field(fm.fields, "DESCRIPTION").GetOr(""),
      Field(fm.fields, "LICENSE"),
      Field(fm.fields, "COMPATIBILITY"),
      fm.metadata,
      Field(fm.fields, "ALLOWED-TOOLS"))
  }

  /** The upper-cased keys are the folded forms of the five field names. */
  lemma FoldedKeys()
    ensures FoldCase("name") == "NAME" && FoldCase("description") == "DESCRIPTION"
    ensures FoldCase("license") == "LICENSE" && FoldCase("compatibility") == "COMPATIBILITY"
    ensures FoldCase("allowed-tools") == "ALLOWED-TOOLS"
  {
  }

  /** What `ParseFrontmatter` computes for the lines between the delimiters. */
  function FrontmatterOf(lines: seq<string>): Result<SkillMetadata, SkillError> {
    match ScanFields(ReadLines(lines), 0, EmptyFrontmatter)
    case Err(e) => Err(e)
    case Ok(fm) => Ok(ToSkillMetadata(fm))
  }

  // -----------------------------------------------------------------------------------------------
  // Properties of the frontmatter scan, stated over the line readings

  /** A failed scan fails on the key/value reading of one of the lines. */
  lemma {:induction false} ScanFieldsFailsOnLine(rs: seq<LineReading>, i: nat, acc: Frontmatter)
    requires ScanFields(rs, i, acc).Err?
    ensures exists k :: i <= k < |rs| && rs[k].entry == Err(ScanFields(rs, i, acc).error)
    decreases |rs| - i, 0
  {
    var line := rs[i];
    if line.blank || line.comment {
      ScanFieldsFailsOnLine(rs, i + 1, acc);
    } else if line.header {
      ScanMetadataFailsOnLine(rs, i + 1, line.indentation, acc);
    } else if line.entry.Ok? {
      var (key, value) := line.entry.value;
      ScanFieldsFailsOnLine(rs, i + 1, acc.(fields := acc.fields[FoldCase(key) := value]));
    }
  }

  lemma {:induction false} ScanMetadataFailsOnLine(rs: seq<LineReading>, j: nat, parent: nat, acc: Frontmatter)
    requires ScanMetadata(rs, j, parent, acc).Err?
    ensures exists k :: j <= k < |rs| && rs[k].entry == Err(ScanMetadata(rs, j, parent, acc).error)
    decreases |rs| - j, 1
  {
    var line := rs[j];
    if line.blank || (line.indentation > parent && line.comment) {
      ScanMetadataFailsOnLine(rs, j + 1, parent, acc);
    } else if line.indentation <= parent {
      ScanFieldsFailsOnLine(rs, j, acc);
    } else if line.entry.Ok? {
      var (key, value) := line.entry.value;
      ScanMetadataFailsOnLine(rs, j + 1, parent, acc.(metadata := acc.metadata[key := value]));
    }
  }

  /** Frontmatter is rejected only because one of its lines, once trimmed, has no key before a
      colon; the error carries that trimmed line. */
  lemma FrontmatterErrorNamesLine(lines: seq<string>)
    requires FrontmatterOf(lines).Err?
    ensures exists k :: && 0 <= k < |lines|
                        && FrontmatterOf(lines).error == InvalidFrontmatterLine(Trim(lines[k]))
                        && SplitKeyValue(Trim(lines[k])).Err?
  {
    var rs := ReadLines(lines);
    ScanFieldsFailsOnLine(rs, 0, EmptyFrontmatter);
    var k :| 0 <= k < |rs| && rs[k].entry == Err(ScanFields(rs, 0, EmptyFrontmatter).error);
    ReadLinesAt(lines, k);
  }

  /** A top-level line read as a `key: value` field. */
  predicate IsField(line: LineReading) {
    !line.blank && !line.comment && !line.header && line.entry.Ok?
  }

  /** A field named `name` in any mix of case sets the skill's name. */
  lemma NameFieldIgnoresCase(fm: Frontmatter, key: string, value: string)
    requires EqualsIgnoreCase(key, "name")
    ensures ToSkillMetadata(fm.(fields := fm.fields[FoldCase(key) := value])).name == value
  {
    EqualsIgnoreCaseIff(key, "name");
    FoldedKeys();
  }

  /** A field whose name is none of the five known ones changes nothing in the record. */
  lemma UnknownFieldIgnored(fm: Frontmatter, key: string, value: string)
    requires !EqualsIgnoreCase(key, "name") && !EqualsIgnoreCase(key, "description")
    requires !EqualsIgnoreCase(key, "license") && !EqualsIgnoreCase(key, "compatibility")
    requires !EqualsIgnoreCase(key, "allowed-tools")
    ensures ToSkillMetadata(fm.(fields := fm.fields[FoldCase(key) := value])) == ToSkillMetadata(fm)
  {
    EqualsIgnoreCaseIff(key, "name");
    EqualsIgnoreCaseIff(key, "description");
    EqualsIgnoreCaseIff(key, "license");
    EqualsIgnoreCaseIff(key, "compatibility");
    EqualsIgnoreCaseIff(key, "allowed-tools");
    FoldedKeys();
  }

  /** Blank lines at the top level are passed over. */
  lemma {:induction false} BlankLinesSkipped(rs: seq<LineReading>, i: nat, k: nat, acc: Frontmatter)
    requires i <= k <= |rs|
    requires forall n :: i <= n < k ==> rs[n].blank
    ensures ScanFields(rs, i, acc) == ScanFields(rs, k, acc)
    decreases k - i
  {
    if i < k {
      BlankLinesSkipped(rs, i + 1, k, acc);
    }
  }

  /** Blank lines inside a `metadata:` block are passed over. */
  lemma {:induction false} BlankLinesInBlock(rs: seq<LineReading>, j: nat, k: nat, parent: nat, acc: Frontmatter)
    requires j <= k <= |rs|
    requires forall n :: j <= n < k ==> rs[n].blank
    ensures ScanMetadata(rs, j, parent, acc) == ScanMetadata(rs, k, parent, acc)
    decreases k - j
  {
    if j < k {
      BlankLinesInBlock(rs, j + 1, k, parent, acc);
    }
  }

  /** Inside a `metadata:` block, a deeper `key: value` line becomes an entry under its key as
      written (ordinal, case kept), and the block goes on. */
  lemma DeeperLineIsMetadataEntry(rs: seq<LineReading>, j: nat, parent: nat, acc: Frontmatter)
    requires j < |rs| && !rs[j].blank && rs[j].indentation > parent && !rs[j].comment && rs[j].entry.Ok?
    ensures var (key, value) := rs[j].entry.value;
            ScanMetadata(rs, j, parent, acc) ==
            ScanMetadata(rs, j + 1, parent, acc.(metadata := acc.metadata[key := value]))
  {
  }

  /** A line a `metadata:` block indented by `parent` takes in: a blank line, or a deeper comment
      or deeper `key: value` line. */
  predicate InBlock(line: LineReading, parent: nat) {
    line.blank || (line.indentation > parent && (line.comment || line.entry.Ok?))
  }

  predicate IsBlockEntry(line: LineReading, parent: nat) {
    !line.blank && line.indentation > parent && !line.comment && line.entry.Ok?
  }

  /** The metadata after the block lines from `j` up to `k`: each entry line in turn sets its key,
      as written, to its value. */
  function BlockEntries(rs: seq<LineReading>, j: nat, k: nat, parent: nat, metadata: map<string, string>)
    : map<string, string>
    requires j <= k <= |rs|
    decreases k - j
  {
    if j == k then metadata
    else
      var (key, value) := if IsBlockEntry(rs[j], parent) then rs[j].entry.value else ("", "");
      BlockEntries(rs, j + 1, k, parent, if IsBlockEntry(rs[j], parent) then metadata[key := value] else metadata)
  }

  /** Lines a block takes in only add their entries to the metadata and leave the fields alone. */
  lemma {:induction false} BlockBody(rs: seq<LineReading>, j: nat, k: nat, parent: nat, acc: Frontmatter)
    requires j <= k <= |rs|
    requires forall n :: j <= n < k ==> InBlock(rs[n], parent)
    ensures ScanMetadata(rs, j, parent, acc) ==
            ScanMetadata(rs, k, parent, acc.(metadata := BlockEntries(rs, j, k, parent, acc.metadata)))
    decreases k - j
  {
    if j < k {
      assert InBlock(rs[j], parent);
      if IsBlockEntry(rs[j], parent) {
        var (key, value) := rs[j].entry.value;
        BlockBody(rs, j + 1, k, parent, acc.(metadata := acc.metadata[key := value]));
      } else {
        BlockBody(rs, j + 1, k, parent, acc);
      }
    }
  }

  /** A `metadata:` block ends at the first non-blank line indented no deeper than its header.
      Whatever entries it held, that line is then read again at the top level rather than
      dropped, and the block's lines have set no field. */
  lemma ClosingLineReadAgain(rs: seq<LineReading>, i: nat, k: nat, acc: Frontmatter)
    requires i < k < |rs| && !rs[i].blank && !rs[i].comment && rs[i].header
    requires forall n :: i < n < k ==> InBlock(rs[n], rs[i].indentation)
    requires !rs[k].blank && rs[k].indentation <= rs[i].indentation
    ensures ScanFields(rs, i, acc) ==
            ScanFields(rs, k, acc.(metadata := BlockEntries(rs, i + 1, k, rs[i].indentation, acc.metadata)))
  {
    ScanFieldsOpensBlock(rs, i, acc);
    BlockBody(rs, i + 1, k, rs[i].indentation, acc);
  }

  /** A `metadata:` block that runs to the end of the frontmatter ends the scan with its entries
      added and the fields untouched. */
  lemma BlockRunsToEnd(rs: seq<LineReading>, i: nat, acc: Frontmatter)
    requires i < |rs| && !rs[i].blank && !rs[i].comment && rs[i].header
    requires forall n :: i < n < |rs| ==> InBlock(rs[n], rs[i].indentation)
    ensures ScanFields(rs, i, acc) ==
            Ok(acc.(metadata := BlockEntries(rs, i + 1, |rs|, rs[i].indentation, acc.metadata)))
  {
    ScanFieldsOpensBlock(rs, i, acc);
    BlockBody(rs, i + 1, |rs|, rs[i].indentation, acc);
  }

  /** A top-level line outside any block: blank, a comment or a `key: value` field. */
  predicate IsFlat(line: LineReading) {
    line.blank || line.comment || IsField(line)
  }

  /** A field line whose key folds to `key`. */
  predicate SetsField(line: LineReading, key: string) {
    IsField(line) && FoldCase(line.entry.value.0) == key
  }

  /** The value of the last line from `i` on that sets the field `key`, if any does. */
  function LastFieldValue(rs: seq<LineReading>, i: nat, key: string): Option<string>
    requires i <= |rs|
    decreases |rs| - i
  {
    if i == |rs| then None
    else
      var later := LastFieldValue(rs, i + 1, key);
      if later.Some? then later
      else if SetsField(rs[i], key) then Some(rs[i].entry.value.1)
      else None
  }

  /** `LastFieldValue` is absent exactly when no line sets the field, and otherwise is the value
      of the last line that does. */
  lemma {:induction false} LastFieldValueSpec(rs: seq<LineReading>, i: nat, key: string)
    requires i <= |rs|
    ensures LastFieldValue(rs, i, key).None? <==> forall n :: i <= n < |rs| ==> !SetsField(rs[n], key)
    ensures forall n :: i <= n < |rs| && SetsField(rs[n], key) &&
                        (forall m :: n < m < |rs| ==> !SetsField(rs[m], key)) ==>
                          LastFieldValue(rs, i, key) == Some(rs[n].entry.value.1)
    decreases |rs| - i
  {
    if i < |rs| {
      LastFieldValueSpec(rs, i + 1, key);
    }
  }

  /** Frontmatter without `metadata:` blocks never fails, adds no metadata, and leaves every field
      with the value of the last line that sets it, or as it was when no line does. */
  lemma {:induction false} FlatScanFields(rs: seq<LineReading>, i: nat, acc: Frontmatter)
    requires i <= |rs|
    requires forall n :: i <= n < |rs| ==> IsFlat(rs[n])
    ensures ScanFields(rs, i, acc).Ok?
    ensures ScanFields(rs, i, acc).value.metadata == acc.metadata
    ensures forall key :: Field(ScanFields(rs, i, acc).value.fields, key) ==
                          if LastFieldValue(rs, i, key).Some? then LastFieldValue(rs, i, key) else Field(acc.fields, key)
    decreases |rs| - i
  {
    if i < |rs| {
      var line := rs[i];
      assert IsFlat(line);
      if line.blank || line.comment {
        FlatScanFields(rs, i + 1, acc);
        forall key ensures !SetsField(line, key) { }
      } else {
        var (name, value) := line.entry.value;
        var next := acc.(fields := acc.fields[FoldCase(name) := value]);
        FlatScanFields(rs, i + 1, next);
        forall key ensures SetsField(line, key) <==> key == FoldCase(name) { }
      }
    }
  }

  /** A `metadata:` header line. */
  predicate IsHeader(line: LineReading) {
    !line.blank && !line.comment && line.header
  }

  /** Where a block whose lines start at `j` ends: the first line from `j` on that the block does
      not take in, or the end of the frontmatter. */
  function BlockEnd(rs: seq<LineReading>, j: nat, parent: nat): (c: nat)
    requires j <= |rs|
    ensures j <= c <= |rs|
    ensures forall n :: j <= n < c ==> InBlock(rs[n], parent)
    ensures c < |rs| ==> !InBlock(rs[c], parent)
    decreases |rs| - j
  {
    if j == |rs| || !InBlock(rs[j], parent) then j else BlockEnd(rs, j + 1, parent)
  }

  /** The block opened by the header at `h` is closed by a line no deeper than the header, rather
      than running to the end or meeting a deeper line it cannot read. */
  predicate BlockClosed(rs: seq<LineReading>, h: nat)
    requires h < |rs|
  {
    var c := BlockEnd(rs, h + 1, rs[h].indentation);
    c < |rs| && rs[c].indentation <= rs[h].indentation
  }

  /** The scan at the top level goes from line `j` to line `k` without failing: each line before
      `k` it reads there is blank, a comment or a field, or a `metadata:` header whose block is
      closed by a line no later than `k`. */
  predicate ReachesTopLevel(rs: seq<LineReading>, j: nat, k: nat)
    requires j <= k <= |rs|
    decreases k - j
  {
    if j == k then true
    else if IsFlat(rs[j]) then ReachesTopLevel(rs, j + 1, k)
    else if IsHeader(rs[j]) then
      var c := BlockEnd(rs, j + 1, rs[j].indentation);
      BlockClosed(rs, j) && c <= k && ReachesTopLevel(rs, c, k)
    else false
  }

  /** Blank, comment and field lines only: the scan reaches each of them at the top level. */
  lemma {:induction false} FlatReachesTopLevel(rs: seq<LineReading>, j: nat, k: nat)
    requires j <= k <= |rs|
    requires forall n :: j <= n < k ==> IsFlat(rs[n])
    ensures ReachesTopLevel(rs, j, k)
    decreases k - j
  {
    if j < k {
      FlatReachesTopLevel(rs, j + 1, k);
    }
  }

  /** An earlier value of a field is forgotten once a later line read at the top level sets that
      field again, whatever blank, comment and field lines and closed `metadata:` blocks come in
      between. */
  lemma {:induction false} OverwrittenFieldForgotten(rs: seq<LineReading>, j: nat, k: nat, acc: Frontmatter,
                                                     key: string, value: string)
    requires j <= k < |rs| && SetsField(rs[k], key)
    requires ReachesTopLevel(rs, j, k)
    ensures ScanFields(rs, j, acc.(fields := acc.fields[key := value])) == ScanFields(rs, j, acc)
    decreases k - j
  {
    var line := rs[j];
    if j == k {
      var (name, v) := line.entry.value;
      assert acc.fields[key := value][FoldCase(name) := v] == acc.fields[FoldCase(name) := v];
    } else if line.blank || line.comment {
      OverwrittenFieldForgotten(rs, j + 1, k, acc, key, value);
    } else if IsFlat(line) {
      var (name, v) := line.entry.value;
      var next := acc.(fields := acc.fields[FoldCase(name) := v]);
      if FoldCase(name) == key {
        assert acc.fields[key := value][FoldCase(name) := v] == next.fields;
      } else {
        assert acc.fields[key := value][FoldCase(name) := v] == next.fields[key := value];
        OverwrittenFieldForgotten(rs, j + 1, k, next, key, value);
      }
    } else {
      var parent := line.indentation;
      var c := BlockEnd(rs, j + 1, parent);
      var inner := acc.(metadata := BlockEntries(rs, j + 1, c, parent, acc.metadata));
      ClosingLineReadAgain(rs, j, c, acc);
      ClosingLineReadAgain(rs, j, c, acc.(fields := acc.fields[key := value]));
      OverwrittenFieldForgotten(rs, c, k, inner, key, value);
    }
  }

  /** Field names are compared ignoring case, so a field line that a later line with the same
      name in any case overrides leaves no trace: the scan goes on as if it were not there,
      whatever comes after the later line, and whatever `metadata:` blocks lie in between. */
  lemma LaterDuplicateFieldWins(rs: seq<LineReading>, i: nat, k: nat, acc: Frontmatter)
    requires i < k < |rs| && IsField(rs[i]) && IsField(rs[k])
    requires ReachesTopLevel(rs, i + 1, k)
    requires EqualsIgnoreCase(rs[i].entry.value.0, rs[k].entry.value.0)
    ensures ScanFields(rs, i, acc) == ScanFields(rs, i + 1, acc)
  {
    var (name, value) := rs[i].entry.value;
    EqualsIgnoreCaseIff(name, rs[k].entry.value.0);
    OverwrittenFieldForgotten(rs, i + 1, k, acc, FoldCase(name), value);
  }

  /** The five keys the record is read from. */
  predicate IsKnownKey(key: string) {
    key == "NAME" || key == "DESCRIPTION" || key == "LICENSE" || key == "COMPATIBILITY" || key == "ALLOWED-TOOLS"
  }

  /** The record built from fields that hold the last value each line set. */
  lemma RecordOfLastFields(fm: Frontmatter, rs: seq<LineReading>)
    requires fm.metadata == map[]
    requires forall key :: Field(fm.fields, key) == LastFieldValue(rs, 0, key)
    ensures ToSkillMetadata(fm) ==
            SkillMetadata(LastFieldValue(rs, 0, "NAME").GetOr(""), LastFieldValue(rs, 0, "DESCRIPTION").GetOr(""),
                          LastFieldValue(rs, 0, "LICENSE"), LastFieldValue(rs, 0, "COMPATIBILITY"),
                          map[], LastFieldValue(rs, 0, "ALLOWED-TOOLS"))
  {
    assert Field(fm.fields, "NAME") == LastFieldValue(rs, 0, "NAME");
    assert Field(fm.fields, "DESCRIPTION") == LastFieldValue(rs, 0, "DESCRIPTION");
    assert Field(fm.fields, "LICENSE") == LastFieldValue(rs, 0, "LICENSE");
    assert Field(fm.fields, "COMPATIBILITY") == LastFieldValue(rs, 0, "COMPATIBILITY");
    assert Field(fm.fields, "ALLOWED-TOOLS") == LastFieldValue(rs, 0, "ALLOWED-TOOLS");
  }

  /** The record built from the fields a scan without `metadata:` blocks leaves. */
  lemma FlatRecord(rs: seq<LineReading>)
    requires forall n :: 0 <= n < |rs| ==> IsFlat(rs[n])
    ensures ScanFields(rs, 0, EmptyFrontmatter).Ok?
    ensures ToSkillMetadata(ScanFields(rs, 0, EmptyFrontmatter).value) ==
            SkillMetadata(LastFieldValue(rs, 0, "NAME").GetOr(""), LastFieldValue(rs, 0, "DESCRIPTION").GetOr(""),
                          LastFieldValue(rs, 0, "LICENSE"), LastFieldValue(rs, 0, "COMPATIBILITY"),
                          map[], LastFieldValue(rs, 0, "ALLOWED-TOOLS"))
  {
    FlatScanFields(rs, 0, EmptyFrontmatter);
    var fm := ScanFields(rs, 0, EmptyFrontmatter).value;
    forall key ensures Field(fm.fields, key) == LastFieldValue(rs, 0, key) {
      assert Field(EmptyFrontmatter.fields, key) == None;
    }
    RecordOfLastFields(fm, rs);
  }

  /** The record from frontmatter without `metadata:` blocks: each of the five fields is the value
      of the last line that sets it (its name compared ignoring case); a missing name or
      description is empty, other missing fields are absent, and there is no metadata. */
  lemma FlatFrontmatterRecord(lines: seq<string>)
    requires forall k :: 0 <= k < |lines| ==> IsFlat(ReadLine(lines[k]))
    ensures var rs := ReadLines(lines);
            FrontmatterOf(lines) ==
            Ok(SkillMetadata(LastFieldValue(rs, 0, "NAME").GetOr(""), LastFieldValue(rs, 0, "DESCRIPTION").GetOr(""),
                             LastFieldValue(rs, 0, "LICENSE"), LastFieldValue(rs, 0, "COMPATIBILITY"),
                             map[], LastFieldValue(rs, 0, "ALLOWED-TOOLS")))
  {
    var rs := ReadLines(lines);
    forall n | 0 <= n < |rs| ensures IsFlat(rs[n]) {
      ReadLinesAt(lines, n);
    }
    FlatRecord(rs);
  }

  /** The value of the last line that the scan from `i` reads at the top level and that sets the
      field `key`, if any does. */
  function TopLevelValue(rs: seq<LineReading>, i: nat, key: string): Option<string>
    requires i <= |rs|
    decreases |rs| - i
  {
    if i == |rs| then None
    else if IsFlat(rs[i]) then
      var later := TopLevelValue(rs, i + 1, key);
      if later.Some? then later
      else if SetsField(rs[i], key) then Some(rs[i].entry.value.1)
      else None
    else if IsHeader(rs[i]) && BlockClosed(rs, i) then TopLevelValue(rs, BlockEnd(rs, i + 1, rs[i].indentation), key)
    else None
  }

  /** `TopLevelValue` is absent exactly when no line the scan reaches at the top level sets the
      field, and otherwise is the value of the last such line. */
  lemma {:induction false} TopLevelValueSpec(rs: seq<LineReading>, i: nat, key: string)
    requires i <= |rs|
    ensures TopLevelValue(rs, i, key).None? <==>
            forall n :: i <= n < |rs| && ReachesTopLevel(rs, i, n) ==> !SetsField(rs[n], key)
    ensures forall n :: i <= n < |rs| && ReachesTopLevel(rs, i, n) && SetsField(rs[n], key) &&
                        (forall m :: n < m < |rs| && ReachesTopLevel(rs, i, m) ==> !SetsField(rs[m], key)) ==>
                          TopLevelValue(rs, i, key) == Some(rs[n].entry.value.1)
    decreases |rs| - i
  {
    if i < |rs| {
      if IsFlat(rs[i]) {
        TopLevelValueSpec(rs, i + 1, key);
        assert forall n :: i < n <= |rs| ==> (ReachesTopLevel(rs, i, n) <==> ReachesTopLevel(rs, i + 1, n));
      } else if IsHeader(rs[i]) && BlockClosed(rs, i) {
        var c := BlockEnd(rs, i + 1, rs[i].indentation);
        TopLevelValueSpec(rs, c, key);
        assert forall n :: i < n <= |rs| ==> (ReachesTopLevel(rs, i, n) <==> c <= n && ReachesTopLevel(rs, c, n));
      } else {
        assert forall n :: i < n <= |rs| ==> !ReachesTopLevel(rs, i, n);
      }
    }
  }

  /** Whatever `metadata:` blocks the frontmatter holds, a scan that succeeds leaves every field
      with the value of the last line it reads at the top level that sets it, or as it was when
      none does: no line inside a block sets a field. */
  lemma {:induction false} ScanFieldsTopLevel(rs: seq<LineReading>, i: nat, acc: Frontmatter, key: string)
    requires i <= |rs|
    ensures ScanFields(rs, i, acc).Ok? ==>
            Field(ScanFields(rs, i, acc).value.fields, key) ==
            if TopLevelValue(rs, i, key).Some? then TopLevelValue(rs, i, key) else Field(acc.fields, key)
    decreases |rs| - i
  {
    if i < |rs| {
      var line := rs[i];
      if line.blank || line.comment {
        ScanFieldsTopLevel(rs, i + 1, acc, key);
      } else if IsField(line) {
        var (name, value) := line.entry.value;
        var next := acc.(fields := acc.fields[FoldCase(name) := value]);
        ScanFieldsTopLevel(rs, i + 1, next, key);
      } else if IsHeader(line) {
        var parent := line.indentation;
        var c := BlockEnd(rs, i + 1, parent);
        var inner := acc.(metadata := BlockEntries(rs, i + 1, c, parent, acc.metadata));
        ScanFieldsOpensBlock(rs, i, acc);
        BlockBody(rs, i + 1, c, parent, acc);
        if c < |rs| && rs[c].indentation <= parent {
          ScanFieldsTopLevel(rs, c, inner, key);
        }
      }
    }
  }

  /** Without `metadata:` blocks, the lines the scan reads at the top level are all the lines. */
  lemma {:induction false} TopLevelValueOfFlat(rs: seq<LineReading>, i: nat, key: string)
    requires i <= |rs|
    requires forall n :: i <= n < |rs| ==> IsFlat(rs[n])
    ensures TopLevelValue(rs, i, key) == LastFieldValue(rs, i, key)
    decreases |rs| - i
  {
    if i < |rs| {
      TopLevelValueOfFlat(rs, i + 1, key);
    }
  }

  /** The record from any frontmatter that parses, `metadata:` blocks included: each of the five
      fields is the value of the last line read at the top level that sets it (its name compared
      ignoring case), never a line inside a block; a missing name or description is empty, other
      missing fields are absent. */
  lemma FrontmatterRecord(lines: seq<string>)
    ensures var rs := ReadLines(lines);
            FrontmatterOf(lines).Ok? ==>
            && FrontmatterOf(lines).value.name == TopLevelValue(rs, 0, "NAME").GetOr("")
            && FrontmatterOf(lines).value.description == TopLevelValue(rs, 0, "DESCRIPTION").GetOr("")
            && FrontmatterOf(lines).value.license == TopLevelValue(rs, 0, "LICENSE")
            && FrontmatterOf(lines).value.compatibility == TopLevelValue(rs, 0, "COMPATIBILITY")
            && FrontmatterOf(lines).value.allowedTools == TopLevelValue(rs, 0, "ALLOWED-TOOLS")
  {
    var rs := ReadLines(lines);
    var scan := ScanFields(rs, 0, EmptyFrontmatter);
    if scan.Ok? {
      ScanFieldsTopLevel(rs, 0, EmptyFrontmatter, "NAME");
      ScanFieldsTopLevel(rs, 0, EmptyFrontmatter, "DESCRIPTION");
      ScanFieldsTopLevel(rs, 0, EmptyFrontmatter, "LICENSE");
      ScanFieldsTopLevel(rs, 0, EmptyFrontmatter, "COMPATIBILITY");
      ScanFieldsTopLevel(rs, 0, EmptyFrontmatter, "ALLOWED-TOOLS");
      assert FrontmatterOf(lines) == Ok(ToSkillMetadata(scan.value));
    }
  }

  /** Frontmatter whose lines are blank, comments or fields other than the five known ones gives
      an empty name and description, no optional fields and no metadata. */
  lemma MissingFieldsDefault(lines: seq<string>)
    requires forall k :: 0 <= k < |lines| ==>
               var line := ReadLine(lines[k]);
               IsFlat(line) && !(IsField(line) && IsKnownKey(FoldCase(line.entry.value.0)))
    ensures FrontmatterOf(lines) == Ok(SkillMetadata("", "", None, None, map[], None))
  {
    var rs := ReadLines(lines);
    forall n | 0 <= n < |rs| ensures IsFlat(rs[n]) && !(IsField(rs[n]) && IsKnownKey(FoldCase(rs[n].entry.value.0))) {
      ReadLinesAt(lines, n);
    }
    FlatFrontmatterRecord(lines);
    NoKnownFieldSet(rs, "NAME");
    NoKnownFieldSet(rs, "DESCRIPTION");
    NoKnownFieldSet(rs, "LICENSE");
    NoKnownFieldSet(rs, "COMPATIBILITY");
    NoKnownFieldSet(rs, "ALLOWED-TOOLS");
  }

  lemma NoKnownFieldSet(rs: seq<LineReading>, key: string)
    requires IsKnownKey(key)
    requires forall n :: 0 <= n < |rs| ==> !(IsField(rs[n]) && IsKnownKey(FoldCase(rs[n].entry.value.0)))
    ensures LastFieldValue(rs, 0, key) == None
  {
    LastFieldValueSpec(rs, 0, key);
  }

  // -----------------------------------------------------------------------------------------------
  // The frontmatter loops

  /** One line of a `metadata:` block, in terms of the line's own text: where the block scan
      goes from there. */
  lemma MetadataLineStep(lines: seq<string>, rs: seq<LineReading>, i: nat, parent: nat, acc: Frontmatter)
    requires ReadsLines(lines, rs) && i < |lines|
    ensures var line := lines[i];
            var spec := ScanMetadata(rs, i, parent, acc);
            && (IsBlank(line) ==> spec == ScanMetadata(rs, i + 1, parent, acc))
            && (!IsBlank(line) && Indentation(line) <= parent ==> spec == ScanFields(rs, i, acc))
            && (!IsBlank(line) && Indentation(line) > parent && IsComment(Trim(line)) ==>
                  spec == ScanMetadata(rs, i + 1, parent, acc))
            && (!IsBlank(line) && Indentation(line) > parent && !IsComment(Trim(line)) ==>
                  match SplitKeyValue(Trim(line))
                  case Err(e) => spec == Err(e)
                  case Ok((key, value)) => spec == ScanMetadata(rs, i + 1, parent, acc.(metadata := acc.metadata[key := value])))
  {
    ReadingOf(lines, rs, i);
    EntryOf(lines, rs, i);
  }

  /** The inner loop of `ParseFrontmatter`, from the line after a `metadata:` header indented by
      `parentIndent`: skips blank lines and deeper comments, records deeper `key: value` lines,
      and stops at the end of the lines or at the first other line indented no deeper than the
      header, stepping back one line so that the outer loop reads that line again. Returns the
      index the outer loop then advances from. */
  method ParseMetadataBlock(lines: seq<string>, ghost rs: seq<LineReading>, start: nat, parentIndent: nat,
                            fields: map<string, string>, metadata: map<string, string>)
    returns (r: Result<(int, map<string, string>), SkillError>)
    requires ReadsLines(lines, rs) && 0 < start <= |lines|
    ensures r.Err? ==> ScanMetadata(rs, start, parentIndent, Frontmatter(fields, metadata)) == Err(r.error)
    ensures r.Ok? ==> start - 1 <= r.value.0 <= |lines|
    ensures r.Ok? ==> ScanMetadata(rs, start, parentIndent, Frontmatter(fields, metadata)) ==
                      ScanFields(rs, r.value.0 + 1, Frontmatter(fields, r.value.1))
  {
    ghost var spec := ScanMetadata(rs, start, parentIndent, Frontmatter(fields, metadata));
    var entries := metadata;
    var i := start;
    while i < |lines|
      invariant start <= i <= |lines|
      invariant ScanMetadata(rs, i, parentIndent, Frontmatter(fields, entries)) == spec
    {
      var metadataLine := lines[i];
      MetadataLineStep(lines, rs, i, parentIndent, Frontmatter(fields, entries));
      if IsBlank(metadataLine) {
        i := i + 1;
        continue;
      }

      var metadataIndent := GetIndentation(metadataLine);
      if metadataIndent <= parentIndent {
        i := i - 1;
        return Ok((i, entries));
      }

      var metadataTrimmed := Trim(metadataLine);
      if IsComment(metadataTrimmed) {
        i := i + 1;
        continue;
      }
      var kv := SplitKeyValue(metadataTrimmed);
      if kv.Err? {
        return Err(kv.error);
      }
      entries := entries[kv.value.0 := kv.value.1];
      i := i + 1;
    }
    return Ok((i, entries));
  }

  /** The `metadata:` branch of `ParseFrontmatter`'s loop body, for the header at line `header`:
      measures the header's indentation and runs the inner loop. On success returns the index
      the outer loop advances from (the header itself, the line before the one that closed the
      block, or the last line) and the metadata entries gathered so far. */
  method ParseMetadataSection(lines: seq<string>, ghost rs: seq<LineReading>, header: nat,
                              fields: map<string, string>, metadata: map<string, string>)
    returns (r: Result<(nat, map<string, string>), SkillError>)
    requires ReadsLines(lines, rs) && header < |lines|
    requires !rs[header].blank && !rs[header].comment && rs[header].header
    ensures r.Err? ==> ScanFields(rs, header, Frontmatter(fields, metadata)) == Err(r.error)
    ensures r.Ok? ==> header <= r.value.0 <= |lines|
    ensures r.Ok? ==> ScanFields(rs, header, Frontmatter(fields, metadata)) ==
                      ScanFields(rs, r.value.0 + 1, Frontmatter(fields, r.value.1))
  {
    var parentIndent := GetIndentation(lines[header]);
    ReadingOf(lines, rs, header);
    var block := ParseMetadataBlock(lines, rs, header + 1, parentIndent, fields, metadata);
    ScanFieldsOpensBlock(rs, header, Frontmatter(fields, metadata));
    if block.Err? {
      return Err(block.error);
    }
    return Ok((block.value.0, block.value.1));
  }

  /** The `key: value` branch of `ParseFrontmatter`'s loop body, for the trimmed line `i`:
      records the value under the case-folded key, or fails when the line has no key. */
  method ParseFieldLine(lines: seq<string>, ghost rs: seq<LineReading>, i: nat, trimmed: string,
                        fields: map<string, string>, metadata: map<string, string>)
    returns (r: Result<map<string, string>, SkillError>)
    requires ReadsLines(lines, rs) && i < |lines| && trimmed == Trim(lines[i])
    requires !rs[i].blank && !rs[i].comment && !rs[i].header
    ensures r.Err? ==> ScanFields(rs, i, Frontmatter(fields, metadata)) == Err(r.error)
    ensures r.Ok? ==> ScanFields(rs, i, Frontmatter(fields, metadata)) ==
                      ScanFields(rs, i + 1, Frontmatter(r.value, metadata))
  {
    EntryOf(lines, rs, i);
    ScanFieldsReadsField(rs, i, Frontmatter(fields, metadata));
    var kv := SplitKeyValue(trimmed);
    if kv.Err? {
      return Err(kv.error);
    }
    return Ok(fields[FoldCase(kv.value.0) := kv.value.1]);
  }

  /** One turn of `ParseFrontmatter`'s loop, at line `i`: skips a blank or comment line, hands a
      `metadata:` line over to the inner loop, or records a `key: value` field under its
      case-folded name. On success returns the index the loop goes on from and the two
      dictionaries; the scan from there gives what the scan from `i` gives. */
  method ParseFrontmatterLine(lines: seq<string>, ghost rs: seq<LineReading>, i: nat,
                              fields: map<string, string>, metadata: map<string, string>)
    returns (r: Result<(nat, map<string, string>, map<string, string>), SkillError>)
    requires ReadsLines(lines, rs) && i < |lines|
    ensures r.Err? ==> ScanFields(rs, i, Frontmatter(fields, metadata)) == Err(r.error)
    ensures r.Ok? ==> i < r.value.0 <= |lines| + 1
    ensures r.Ok? ==> ScanFields(rs, i, Frontmatter(fields, metadata)) ==
                      ScanFields(rs, r.value.0, Frontmatter(r.value.1, r.value.2))
  {
    var line := lines[i];
    ReadingOf(lines, rs, i);
    if IsBlank(line) {
      ScanFieldsSkipsLine(rs, i, Frontmatter(fields, metadata));
      return Ok((i + 1, fields, metadata));
    }

    var trimmed := Trim(line);
    if IsComment(trimmed) {
      ScanFieldsSkipsLine(rs, i, Frontmatter(fields, metadata));
      return Ok((i + 1, fields, metadata));
    }

    if IsMetadataHeader(trimmed) {
      var block := ParseMetadataSection(lines, rs, i, fields, metadata);
      if block.Err? {
        return Err(block.error);
      }
      return Ok((block.value.0 + 1, fields, block.value.1));
    }

    var field := ParseFieldLine(lines, rs, i, trimmed, fields, metadata);
    if field.Err? {
      return Err(field.error);
    }
    return Ok((i + 1, field.value, metadata));
  }

  /** `ParseFrontmatter`: one pass over the lines with an index, filling the two dictionaries; a
      `metadata:` line hands over to the inner loop above, after which the index moves on from
      where that loop stopped. */
  method ParseFrontmatter(frontmatterLines: seq<string>) returns (r: Result<SkillMetadata, SkillError>)
    ensures r == FrontmatterOf(frontmatterLines)
  {
    ghost var rs := ReadLines(frontmatterLines);
    ReadLinesReads(frontmatterLines);
    ghost var spec := ScanFields(rs, 0, EmptyFrontmatter);
    var fields: map<string, string> := map[];
    var metadata: map<string, string> := map[];
    var i: nat := 0;
    while i < |frontmatterLines|
      invariant 0 <= i <= |frontmatterLines| + 1
      invariant ScanFields(rs, i, Frontmatter(fields, metadata)) == spec
      decreases |frontmatterLines| + 1 - i
    {
      var step := ParseFrontmatterLine(frontmatterLines, rs, i, fields, metadata);
      if step.Err? {
        return Err(step.error);
      }
      i, fields, metadata := step.value.0, step.value.1, step.value.2;
    }
    r := Ok(ToSkillMetadata(Frontmatter(fields, metadata)));
  }

  // -----------------------------------------------------------------------------------------------
  // Validation

  predicate IsLowerAlphanumeric(c: char) {
    ('a' <= c <= 'z') || ('0' <= c <= '9')
  }

  /** The characters `ValidateName` accepts. */
  predicate IsNameChar(c: char) {
    c == '-' || IsLowerAlphanumeric(c)
  }

  /** `name.Contains("--")`. */
  predicate HasConsecutiveHyphens(s: string) {
    exists i :: 0 <= i < |s| - 1 && s[i] == '-' && s[i + 1] == '-'
  }

  /** Kebab case, as a grammar: one or more words of lower-case letters and digits, joined by
      single hyphens. */
  predicate IsKebabCase(s: string)
    decreases |s|
  {
    && |s| > 0
    && IsLowerAlphanumeric(s[0])
    && (|s| == 1 || (if s[1] == '-' then IsKebabCase(s[2..]) else IsKebabCase(s[1..])))
  }

  /** The kebab-case grammar is exactly what the name checks test: non-empty, no hyphen at either
      end, no two hyphens in a row, and only lower-case letters, digits and hyphens. */
  lemma {:induction false} KebabCaseIff(s: string)
    ensures IsKebabCase(s) <==>
              && |s| > 0
              && s[0] != '-'
              && s[|s| - 1] != '-'
              && !HasConsecutiveHyphens(s)
              && forall i :: 0 <= i < |s| ==> IsNameChar(s[i])
    decreases |s|
  {
    if |s| >= 2 {
      var k := if s[1] == '-' then 2 else 1;
      var t := s[k..];
      KebabCaseIff(t);
      assert forall i :: 0 <= i < |t| ==> t[i] == s[i + k];
      if HasConsecutiveHyphens(s) {
        var i :| 0 <= i < |s| - 1 && s[i] == '-' && s[i + 1] == '-';
        if i >= k {
          assert t[i - k] == '-' && t[i - k + 1] == '-';
        }
      }
      if HasConsecutiveHyphens(t) {
        var i :| 0 <= i < |t| - 1 && t[i] == '-' && t[i + 1] == '-';
        assert s[i + k] == '-' && s[i + k + 1] == '-';
      }
      if k == 2 && |t| > 0 && t[0] == '-' {
        assert s[1] == '-' && s[1 + 1] == '-';
      }
    }
  }

  /** `ValidateName`, first failing rule first: blank, length, directory, hyphen at an end,
      consecutive hyphens, characters. It passes exactly for a kebab-case name of 1 to 64
      characters that is the directory's name. */
  function ValidateName(name: string, directoryName: string): (r: Outcome<SkillError>)
    ensures r.Pass? <==> name == directoryName && Utf16Length(name) <= MaxNameLength && IsKebabCase(name)
    ensures r.Fail? ==> r.error.IsValidationError()
  {
    KebabCaseIff(name);
    if IsBlank(name) then Fail(MissingName)
    else if Utf16Length(name) < 1 || Utf16Length(name) > MaxNameLength then Fail(NameLengthOutOfRange)
    else if name != directoryName then Fail(NameDirectoryMismatch(directoryName))
    else if StartsWith(name, "-") || EndsWith(name, "-") then Fail(NameHyphenAtEdge)
    else if HasConsecutiveHyphens(name) then Fail(NameConsecutiveHyphens)
    else if exists i :: 0 <= i < |name| && !IsNameChar(name[i]) then Fail(NameInvalidCharacters)
    else
      assert !IsWhiteSpace(name[0]);
      Pass
  }

  /** `ValidateDescription`: present and at most 1024 characters. */
  function ValidateDescription(description: string): (r: Outcome<SkillError>)
    ensures r.Pass? <==> !IsBlank(description) && Utf16Length(description) <= MaxDescriptionLength
    ensures r.Fail? ==> r.error.IsValidationError()
  {
    if IsBlank(description) then Fail(MissingDescription)
    else if Utf16Length(description) > MaxDescriptionLength then Fail(DescriptionTooLong)
    else Pass
  }

  /** A compatibility note is limited to 500 characters only when it is present and not blank. */
  predicate CompatibilityWithinLimit(compatibility: Option<string>) {
    compatibility.None? || IsBlank(compatibility.value) || Utf16Length(compatibility.value) <= MaxCompatibilityLength
  }

  /** Every rule the loader enforces on a skill's metadata. */
  predicate IsValidMetadata(m: SkillMetadata, directoryName: string) {
    && m.name == directoryName
    && Utf16Length(m.name) <= MaxNameLength
    && IsKebabCase(m.name)
    && !IsBlank(m.description)
    && Utf16Length(m.description) <= MaxDescriptionLength
    && CompatibilityWithinLimit(m.compatibility)
  }

  /** `ValidateMetadata`: the name rules, then the description rules, then the compatibility
      limit; the first rule broken is the error. */
  function ValidateMetadata(m: SkillMetadata, directoryName: string): (r: Outcome<SkillError>)
    ensures r.Pass? <==> IsValidMetadata(m, directoryName)
    ensures r.Fail? ==> r.error.IsValidationError()
  {
    var nameCheck := ValidateName(m.name, directoryName);
    if nameCheck.Fail? then nameCheck
    else
      var descriptionCheck := ValidateDescription(m.description);
      if descriptionCheck.Fail? then descriptionCheck
      else if m.compatibility.Some? && !IsBlank(m.compatibility.value) &&
              Utf16Length(m.compatibility.value) > MaxCompatibilityLength
      then Fail(CompatibilityTooLong)
      else Pass
  }

  /** A name that differs from its directory's always fails, whatever the other fields say; once
      the name is present and of legal length, that mismatch is the error reported. */
  lemma NameMismatchAlwaysFails(m: SkillMetadata, directoryName: string)
    requires m.name != directoryName
    ensures ValidateMetadata(m, directoryName).Fail?
    ensures !IsBlank(m.name) && Utf16Length(m.name) <= MaxNameLength ==>
              ValidateMetadata(m, directoryName) == Fail(NameDirectoryMismatch(directoryName))
  {
  }

  /** The name rules are checked in a fixed order and the first one broken is the error: blank,
      then length, then the directory; the rules on the name's shape follow
      (`ValidateNameReportsShapeRule`). */
  lemma ValidateNameReportsFirstBrokenRule(name: string, directoryName: string)
    ensures ValidateName(name, directoryName) == Fail(MissingName) <==> IsBlank(name)
    ensures ValidateName(name, directoryName) == Fail(NameLengthOutOfRange) <==>
              !IsBlank(name) && Utf16Length(name) > MaxNameLength
    ensures ValidateName(name, directoryName) == Fail(NameDirectoryMismatch(directoryName)) <==>
              !IsBlank(name) && Utf16Length(name) <= MaxNameLength && name != directoryName
  {
    assert IsBlank([]);
  }

  /** Past the emptiness, length and directory checks, the name's shape is checked: hyphens at
      its edges first, then doubled hyphens, then characters outside `a-z`, `0-9` and `-`. */
  lemma ValidateNameReportsShapeRule(name: string, directoryName: string)
    ensures ValidateName(name, directoryName) == Fail(NameHyphenAtEdge) <==>
              && !IsBlank(name) && Utf16Length(name) <= MaxNameLength && name == directoryName
              && (name[0] == '-' || name[|name| - 1] == '-')
    ensures ValidateName(name, directoryName) == Fail(NameConsecutiveHyphens) <==>
              && !IsBlank(name) && Utf16Length(name) <= MaxNameLength && name == directoryName
              && name[0] != '-' && name[|name| - 1] != '-'
              && HasConsecutiveHyphens(name)
    ensures ValidateName(name, directoryName) == Fail(NameInvalidCharacters) <==>
              && !IsBlank(name) && Utf16Length(name) <= MaxNameLength && name == directoryName
              && name[0] != '-' && name[|name| - 1] != '-'
              && !HasConsecutiveHyphens(name)
              && exists i :: 0 <= i < |name| && !IsNameChar(name[i])
  {
    if IsBlank(name) || Utf16Length(name) > MaxNameLength || name != directoryName {
      ValidateNameReportsFirstBrokenRule(name, directoryName);
    } else {
      assert StartsWith(name, "-") <==> name[0] == '-' by { assert IsBlank([]); }
      assert EndsWith(name, "-") <==> name[|name| - 1] == '-';
      assert ValidateName(name, directoryName) ==
             if name[0] == '-' || name[|name| - 1] == '-' then Fail(NameHyphenAtEdge)
             else if HasConsecutiveHyphens(name) then Fail(NameConsecutiveHyphens)
             else if exists i :: 0 <= i < |name| && !IsNameChar(name[i]) then Fail(NameInvalidCharacters)
             else Pass;
    }
  }

  /** The description is checked for presence before its length. */
  lemma ValidateDescriptionReportsFirstBrokenRule(description: string)
    ensures ValidateDescription(description) == Fail(MissingDescription) <==> IsBlank(description)
    ensures ValidateDescription(description) == Fail(DescriptionTooLong) <==>
              !IsBlank(description) && Utf16Length(description) > MaxDescriptionLength
  {
  }

  /** A valid name is plain ASCII, so its `Length` in code units is its number of characters. */
  lemma ValidNameLength(name: string, directoryName: string)
    requires ValidateName(name, directoryName).Pass?
    ensures Utf16Length(name) == |name| <= MaxNameLength
  {
    KebabCaseIff(name);
    Utf16LengthCounts(name);
  }

  /** The name is checked before the description, and the description before the compatibility
      note. */
  lemma ValidateMetadataOrder(m: SkillMetadata, directoryName: string)
    ensures ValidateName(m.name, directoryName).Fail? ==>
              ValidateMetadata(m, directoryName) == ValidateName(m.name, directoryName)
    ensures ValidateName(m.name, directoryName).Pass? && ValidateDescription(m.description).Fail? ==>
              ValidateMetadata(m, directoryName) == ValidateDescription(m.description)
    ensures ValidateMetadata(m, directoryName) == Fail(CompatibilityTooLong) <==>
              && ValidateName(m.name, directoryName).Pass?
              && ValidateDescription(m.description).Pass?
              && !CompatibilityWithinLimit(m.compatibility)
  {
  }

  // -----------------------------------------------------------------------------------------------
  // One document

  /** Where the frontmatter of a document's lines ends: the index of the first `---` line after
      the opening one, or the error for a missing opening or closing delimiter. */
  function FrontmatterEnd(lines: seq<string>): Result<nat, SkillError> {
    if |lines| == 0 || !IsFrontmatterDelimiter(lines[0]) then Err(MissingFrontmatter)
    else
      var endIndex := FindIndex(lines, 1, IsFrontmatterDelimiter);
      if endIndex < 0 then Err(MissingFrontmatterEnd) else Ok(endIndex)
  }

  /** The frontmatter must open on the first line, and it closes at the first later `---` line;
      without one the document is rejected. */
  lemma FrontmatterEndFindsFirstDelimiter(lines: seq<string>)
    ensures FrontmatterEnd(lines) == Err(MissingFrontmatter) <==>
            |lines| == 0 || !IsFrontmatterDelimiter(lines[0])
    ensures FrontmatterEnd(lines) == Err(MissingFrontmatterEnd) <==>
            && |lines| > 0 && IsFrontmatterDelimiter(lines[0])
            && forall k :: 1 <= k < |lines| ==> !IsFrontmatterDelimiter(lines[k])
    ensures FrontmatterEnd(lines).Ok? ==>
              var e := FrontmatterEnd(lines).value;
              && 1 <= e < |lines| && IsFrontmatterDelimiter(lines[e])
              && forall k :: 1 <= k < e ==> !IsFrontmatterDelimiter(lines[k])
  {
    if |lines| > 0 {
      FindIndexFindsFirst(lines, 1, IsFrontmatterDelimiter);
    }
  }

  /** What `ParseSkillFile` yields for a document: the frontmatter is the lines strictly between
      the opening delimiter and `FrontmatterEnd`, the body is the remaining lines joined with the
      platform newline, and the metadata must pass validation. */
  function SkillFile(directoryPath: string, directoryName: string, content: string, newline: string)
    : Result<SkillDefinition, SkillError>
  {
    var lines := SplitLines(content);
    match FrontmatterEnd(lines)
    case Err(e) => Err(e)
    case Ok(endIndex) =>
      var body := Join(newline, lines[endIndex + 1..]);
      match FrontmatterOf(lines[1..endIndex])
      case Err(e) => Err(e)
      case Ok(metadata) =>
        match ValidateMetadata(metadata, directoryName)
        case Fail(e) => Err(e)
        case Pass => Ok(SkillDefinition(metadata, body, content, directoryPath))
  }

  /** A document fails on its delimiters exactly as `FrontmatterEnd` says, before its fields are
      looked at; otherwise it is accepted exactly when its frontmatter parses and validates, and
      then keeps its text verbatim and carries valid metadata named after its directory. */
  lemma SkillFileOutcome(directoryPath: string, directoryName: string, content: string, newline: string)
    ensures var lines := SplitLines(content);
            var r := SkillFile(directoryPath, directoryName, content, newline);
            && (FrontmatterEnd(lines).Err? ==> r == Err(FrontmatterEnd(lines).error))
            && (FrontmatterEnd(lines).Ok? ==>
                  var e := FrontmatterEnd(lines).value;
                  && (r.Ok? <==> FrontmatterOf(lines[1..e]).Ok? &&
                                 IsValidMetadata(FrontmatterOf(lines[1..e]).value, directoryName))
                  && (r.Ok? ==> && r.value.metadata == FrontmatterOf(lines[1..e]).value
                                && r.value.body == Join(newline, lines[e + 1..])
                                && r.value.fullContent == content
                                && r.value.directoryPath == directoryPath))
  {
  }

  /** An accepted document carries valid metadata named after its directory and keeps its text. */
  lemma SkillFileAcceptedIsValid(directoryPath: string, directoryName: string, content: string, newline: string)
    requires SkillFile(directoryPath, directoryName, content, newline).Ok?
    ensures var skill := SkillFile(directoryPath, directoryName, content, newline).value;
            && skill.fullContent == content
            && skill.directoryPath == directoryPath
            && skill.metadata.name == directoryName
            && IsValidMetadata(skill.metadata, directoryName)
  {
    SkillFileOutcome(directoryPath, directoryName, content, newline);
  }

  // -----------------------------------------------------------------------------------------------
  // Writing a record back as a document

  /** A line of text that `SplitLines` keeps whole when an LF follows it: no LF inside, and no CR
      at its end that the LF would complete into a CRLF. */
  predicate IsSingleLine(line: string) {
    '\n' !in line && (line == [] || line[|line| - 1] != '\r')
  }

  /** A line followed by an LF becomes the first line, whatever follows. */
  lemma {:induction false} SplitLinesCons(line: string, rest: string)
    requires IsSingleLine(line)
    ensures SplitLines(line + "\n" + rest) == [line] + SplitLines(rest)
  {
    ReplaceCrLfLine(line, rest);
    SplitFirstPiece(line, '\n', ReplaceCrLf(rest));
  }

  /** Lines each ended by an LF split back into those lines, followed by the lines of whatever
      comes after them. */
  lemma {:induction false} SplitLinesAfterLines(lines: seq<string>, rest: string)
    requires forall k :: 0 <= k < |lines| ==> IsSingleLine(lines[k])
    ensures SplitLines(Terminated(lines, "\n") + rest) == lines + SplitLines(rest)
    decreases |lines|
  {
    if lines != [] {
      var init := lines[..|lines| - 1];
      var last := lines[|lines| - 1];
      var tail := last + "\n" + rest;
      assert Terminated(lines, "\n") == Terminated(init, "\n") + last + "\n";
      calc {
        Terminated(lines, "\n") + rest;
        ((Terminated(init, "\n") + last) + "\n") + rest;
        Terminated(init, "\n") + tail;
      }
      assert forall k :: 0 <= k < |init| ==> init[k] == lines[k];
      SplitLinesAfterLines(init, tail);
      SplitLinesCons(last, rest);
      calc {
        SplitLines(Terminated(lines, "\n") + rest);
        init + SplitLines(tail);
        init + ([last] + SplitLines(rest));
        (init + [last]) + SplitLines(rest);
        { assert lines == init + [last]; }
        lines + SplitLines(rest);
      }
    } else {
      assert Terminated(lines, "\n") + rest == rest;
    }
  }

  /** A key the writer uses: lower-case letters at both ends, no colon and no line break. */
  predicate IsPlainKey(key: string) {
    && key != []
    && 'a' <= key[0] <= 'z' && 'a' <= key[|key| - 1] <= 'z'
    && ':' !in key && '\n' !in key
  }

  /** One field written as `key: "value"`; the quotes keep any white space of the value. */
  function FieldLine(key: string, value: string): string {
    key + ": \"" + value + "\""
  }

  /** How the scan reads a line that holds a field. */
  function FieldReading(field: (string, string)): LineReading {
    LineReading(false, 0, false, false, Ok(field))
  }

  /** A written field line is trimmed already: it starts with its key and ends with a quote. */
  lemma {:induction false} FieldLineTrimmed(key: string, value: string)
    requires IsPlainKey(key)
    ensures Trim(FieldLine(key, value)) == FieldLine(key, value)
    ensures FieldLine(key, value)[0] == key[0]
  {
    var line := FieldLine(key, value);
    assert line[|line| - 1] == '"';
    TrimPadded("", line, "");
    assert "" + line + "" == line;
  }

  /** A written field line splits back into its key and its value, quotes removed. */
  lemma {:induction false} FieldLineEntry(key: string, value: string)
    requires IsPlainKey(key)
    ensures SplitKeyValue(FieldLine(key, value)) == Ok((key, value))
  {
    var quoted := "\"" + value + "\"";
    var rest := " " + quoted;
    assert FieldLine(key, value) == key + ":" + rest;
    assert Trim(key) == key by {
      TrimPadded("", key, "");
      assert "" + key + "" == key;
    }
    assert Trim(rest) == quoted by {
      TrimPadded(" ", quoted, "");
      assert " " + quoted + "" == rest;
    }
    assert Unquote(quoted) == value by {
      UnquoteQuoted('"', value);
      assert ['"'] + value + ['"'] == quoted;
    }
    SplitKeyValueAtFirstColon(key, rest);
  }

  /** A written field line is neither blank, nor indented, nor a comment, nor a `metadata:`
      header. */
  lemma {:induction false} FieldLineShape(key: string, value: string)
    requires IsPlainKey(key)
    ensures var line := FieldLine(key, value);
            !IsBlank(line) && Indentation(line) == 0 && !IsComment(line) && !IsMetadataHeader(line)
  {
    var line := FieldLine(key, value);
    FieldLineTrimmed(key, value);
    assert !IsBlank(line) by { assert !IsWhiteSpace(line[0]); }
    SkipWhiteSpaceUnique(line, 0, 0);
    assert !IsMetadataHeader(line) by {
      if |line| == |"metadata:"| {
        assert ToUpperOrdinal(line[|line| - 1]) != ToUpperOrdinal("metadata:"[|line| - 1]);
      }
    }
  }

  /** A written field line is read as that field: not blank, not indented, neither a comment nor
      a `metadata:` header, and it splits back into the key and the value, quotes removed. */
  lemma {:induction false} FieldLineReading(key: string, value: string)
    requires IsPlainKey(key)
    ensures ReadLine(FieldLine(key, value)) == FieldReading((key, value))
  {
    FieldLineTrimmed(key, value);
    FieldLineShape(key, value);
    FieldLineEntry(key, value);
  }

  function OptionalField(key: string, value: Option<string>): seq<(string, string)> {
    if value.Some? then [(key, value.value)] else []
  }

  /** The fields of a record in the order they are written; absent optional fields are left out. */
  function FieldsOf(m: SkillMetadata): seq<(string, string)> {
    [("name", m.name), ("description", m.description)]
    + OptionalField("license", m.license)
    + OptionalField("compatibility", m.compatibility)
    + OptionalField("allowed-tools", m.allowedTools)
  }

  function FieldLines(fields: seq<(string, string)>): seq<string> {
    seq(|fields|, n requires 0 <= n < |fields| => FieldLine(fields[n].0, fields[n].1))
  }

  /** The frontmatter a record is written as: an opening `---`, one `key: "value"` line per field,
      and a closing `---`, each ended by an LF. The `metadata` block is not written. */
  function Serialize(m: SkillMetadata): string {
    Terminated(["---"] + FieldLines(FieldsOf(m)) + ["---"], "\n")
  }

  /** Of `fields`, the value of the last one whose key folds to `key`. */
  function FieldValue(fields: seq<(string, string)>, key: string): Option<string>
    decreases |fields|
  {
    if fields == [] then None
    else
      var later := FieldValue(fields[1..], key);
      if later.Some? then later
      else if FoldCase(fields[0].0) == key then Some(fields[0].1)
      else None
  }

  /** A later field overrides an earlier one with the same folded key. */
  lemma {:induction false} FieldValueAppend(a: seq<(string, string)>, b: seq<(string, string)>, key: string)
    ensures FieldValue(a + b, key) == if FieldValue(b, key).Some? then FieldValue(b, key) else FieldValue(a, key)
    decreases |a|
  {
    if a == [] {
      assert a + b == b;
    } else {
      assert (a + b)[1..] == a[1..] + b;
      FieldValueAppend(a[1..], b, key);
    }
  }

  /** An optional field holds its value under its folded key and nothing under any other key. */
  lemma {:induction false} FieldValueOptional(key: string, value: Option<string>, lookup: string)
    ensures FieldValue(OptionalField(key, value), lookup) == if FoldCase(key) == lookup then value else None
  {
    if value.Some? {
      assert OptionalField(key, value)[1..] == [];
    }
  }

  /** The value a record's written fields hold under a folded key, when the four fields after
      `name` do not hold that key. */
  lemma {:induction false} FieldsOfLookup(m: SkillMetadata, key: string)
    ensures FieldValue(FieldsOf(m), key) ==
            var tools := FieldValue(OptionalField("allowed-tools", m.allowedTools), key);
            var compatibility := FieldValue(OptionalField("compatibility", m.compatibility), key);
            var license := FieldValue(OptionalField("license", m.license), key);
            var front := FieldValue([("name", m.name), ("description", m.description)], key);
            if tools.Some? then tools else if compatibility.Some? then compatibility
            else if license.Some? then license else front
  {
    var front := [("name", m.name), ("description", m.description)];
    var license := OptionalField("license", m.license);
    var compatibility := OptionalField("compatibility", m.compatibility);
    var allowedTools := OptionalField("allowed-tools", m.allowedTools);
    FieldValueAppend(front + license + compatibility, allowedTools, key);
    FieldValueAppend(front + license, compatibility, key);
    FieldValueAppend(front, license, key);
  }

  /** The written fields hold the record's five fields under their folded names. */
  lemma {:induction false} FieldsOfValues(m: SkillMetadata)
    ensures FieldValue(FieldsOf(m), "NAME") == Some(m.name)
    ensures FieldValue(FieldsOf(m), "DESCRIPTION") == Some(m.description)
    ensures FieldValue(FieldsOf(m), "LICENSE") == m.license
    ensures FieldValue(FieldsOf(m), "COMPATIBILITY") == m.compatibility
    ensures FieldValue(FieldsOf(m), "ALLOWED-TOOLS") == m.allowedTools
  {
    FoldedKeys();
    var front := [("name", m.name), ("description", m.description)];
    assert front[1..][1..] == [];
    var keys := ["NAME", "DESCRIPTION", "LICENSE", "COMPATIBILITY", "ALLOWED-TOOLS"];
    forall k | 0 <= k < |keys|
      ensures FieldValue(FieldsOf(m), keys[k]) ==
              [Some(m.name), Some(m.description), m.license, m.compatibility, m.allowedTools][k]
    {
      FieldsOfLookup(m, keys[k]);
      FieldValueOptional("license", m.license, keys[k]);
      FieldValueOptional("compatibility", m.compatibility, keys[k]);
      FieldValueOptional("allowed-tools", m.allowedTools, keys[k]);
    }
    assert keys[0] == "NAME" && keys[1] == "DESCRIPTION" && keys[2] == "LICENSE";
    assert keys[3] == "COMPATIBILITY" && keys[4] == "ALLOWED-TOOLS";
  }

  /** The written keys are plain. */
  lemma {:induction false} FieldsOfKeys(m: SkillMetadata)
    ensures forall n :: 0 <= n < |FieldsOf(m)| ==> IsPlainKey(FieldsOf(m)[n].0)
  {
    var front := [("name", m.name), ("description", m.description)];
    var license := OptionalField("license", m.license);
    var compatibility := OptionalField("compatibility", m.compatibility);
    var tools := OptionalField("allowed-tools", m.allowedTools);
    assert IsPlainKey("name") && IsPlainKey("description") by { PlainFrontKeys(); }
    assert IsPlainKey("license") && IsPlainKey("compatibility") by { PlainOptionalKeys(); }
    assert IsPlainKey("allowed-tools") by { PlainOptionalKeys(); }
    assert FieldsOf(m) == front + license + compatibility + tools;
    assert forall n :: 0 <= n < |front| ==> IsPlainKey(front[n].0);
    assert forall n :: 0 <= n < |license| ==> IsPlainKey(license[n].0);
    assert forall n :: 0 <= n < |compatibility| ==> IsPlainKey(compatibility[n].0);
    assert forall n :: 0 <= n < |tools| ==> IsPlainKey(tools[n].0);
  }

  lemma PlainFrontKeys()
    ensures IsPlainKey("name") && IsPlainKey("description")
  {
  }

  lemma PlainOptionalKeys()
    ensures IsPlainKey("license") && IsPlainKey("compatibility") && IsPlainKey("allowed-tools")
  {
  }

  /** Over field lines, the scan's last value of a field is the last written value. */
  lemma {:induction false} LastFieldOfFieldLines(rs: seq<LineReading>, fields: seq<(string, string)>, i: nat,
                                                 key: string)
    requires |rs| == |fields| && i <= |rs|
    requires forall n :: 0 <= n < |rs| ==> rs[n] == FieldReading(fields[n])
    ensures LastFieldValue(rs, i, key) == FieldValue(fields[i..], key)
    decreases |rs| - i
  {
    if i < |rs| {
      LastFieldOfFieldLines(rs, fields, i + 1, key);
      assert fields[i..][1..] == fields[i + 1..];
    }
  }

  /** Field lines are read as field readings of their keys and values. */
  lemma {:induction false} FieldLinesReadings(fields: seq<(string, string)>)
    requires forall n :: 0 <= n < |fields| ==> IsPlainKey(fields[n].0)
    ensures forall n :: 0 <= n < |fields| ==> ReadLines(FieldLines(fields))[n] == FieldReading(fields[n])
  {
    var lines := FieldLines(fields);
    forall n | 0 <= n < |fields| ensures ReadLines(lines)[n] == FieldReading(fields[n]) {
      ReadLinesAt(lines, n);
      FieldLineReading(fields[n].0, fields[n].1);
    }
  }

  /** Field lines are flat lines. */
  lemma {:induction false} FieldLinesFlat(fields: seq<(string, string)>)
    requires forall n :: 0 <= n < |fields| ==> IsPlainKey(fields[n].0)
    ensures forall k :: 0 <= k < |FieldLines(fields)| ==> IsFlat(ReadLine(FieldLines(fields)[k]))
  {
    forall k | 0 <= k < |FieldLines(fields)| ensures IsFlat(ReadLine(FieldLines(fields)[k])) {
      FieldLineReading(fields[k].0, fields[k].1);
    }
  }

  /** Over field lines, the scan's last value of a key is the last value written for it. */
  lemma {:induction false} FieldLinesValue(fields: seq<(string, string)>, key: string)
    requires forall n :: 0 <= n < |fields| ==> IsPlainKey(fields[n].0)
    ensures LastFieldValue(ReadLines(FieldLines(fields)), 0, key) == FieldValue(fields, key)
  {
    FieldLinesReadings(fields);
    LastFieldOfFieldLines(ReadLines(FieldLines(fields)), fields, 0, key);
    assert fields[0..] == fields;
  }

  /** Field lines parse back into the record whose five fields are the last values they write. */
  lemma {:induction false} FieldLinesParse(fields: seq<(string, string)>, m: SkillMetadata)
    requires forall n :: 0 <= n < |fields| ==> IsPlainKey(fields[n].0)
    requires m.metadata == map[]
    requires FieldValue(fields, "NAME") == Some(m.name) && FieldValue(fields, "DESCRIPTION") == Some(m.description)
    requires FieldValue(fields, "LICENSE") == m.license && FieldValue(fields, "COMPATIBILITY") == m.compatibility
    requires FieldValue(fields, "ALLOWED-TOOLS") == m.allowedTools
    ensures FrontmatterOf(FieldLines(fields)) == Ok(m)
  {
    var lines := FieldLines(fields);
    var rs := ReadLines(lines);
    FieldLinesValue(fields, "NAME");
    FieldLinesValue(fields, "DESCRIPTION");
    FieldLinesValue(fields, "LICENSE");
    FieldLinesValue(fields, "COMPATIBILITY");
    FieldLinesValue(fields, "ALLOWED-TOOLS");
    FieldLinesFlat(fields);
    FlatFrontmatterRecord(lines);
  }

  /** The written field lines parse back into the record, as long as it has no `metadata`. */
  lemma {:induction false} SerializedFieldsParse(m: SkillMetadata)
    requires m.metadata == map[]
    ensures FrontmatterOf(FieldLines(FieldsOf(m))) == Ok(m)
  {
    FieldsOfKeys(m);
    FieldsOfValues(m);
    FieldLinesParse(FieldsOf(m), m);
  }

  /** The document's frontmatter ends at the closing `---` after the field lines. */
  lemma {:induction false} SerializedFrontmatterEnd(fieldLines: seq<string>, rest: seq<string>)
    requires forall k :: 0 <= k < |fieldLines| ==> !IsFrontmatterDelimiter(fieldLines[k])
    ensures FrontmatterEnd(["---"] + fieldLines + ["---"] + rest) == Ok(|fieldLines| + 1)
  {
    var lines := ["---"] + fieldLines + ["---"] + rest;
    var e := |fieldLines| + 1;
    PaddedDelimiter("", "");
    assert "" + "---" + "" == "---";
    assert lines[0] == "---" && lines[e] == "---";
    FrontmatterEndFindsFirstDelimiter(lines);
    forall k | 1 <= k < e ensures !IsFrontmatterDelimiter(lines[k]) {
      assert lines[k] == fieldLines[k - 1];
    }
  }

  /** The record's values are single lines when written. */
  predicate HasSingleLineValues(m: SkillMetadata) {
    && '\n' !in m.description
    && (m.license.Some? ==> '\n' !in m.license.value)
    && (m.compatibility.Some? ==> '\n' !in m.compatibility.value)
    && (m.allowedTools.Some? ==> '\n' !in m.allowedTools.value)
  }

  /** Each line of the written frontmatter stays one line and none of the field lines is a
      delimiter. */
  lemma {:induction false} SerializedLines(m: SkillMetadata)
    requires IsKebabCase(m.name) && HasSingleLineValues(m)
    ensures var lines := ["---"] + FieldLines(FieldsOf(m)) + ["---"];
            forall k :: 0 <= k < |lines| ==> IsSingleLine(lines[k])
    ensures forall k :: 0 <= k < |FieldLines(FieldsOf(m))| ==> !IsFrontmatterDelimiter(FieldLines(FieldsOf(m))[k])
  {
    KebabCaseIff(m.name);
    assert '\n' !in m.name;
    var fields := FieldsOf(m);
    var fieldLines := FieldLines(fields);
    FieldsOfKeys(m);
    forall n | 0 <= n < |fields| ensures '\n' !in fields[n].1 {
      assert fields[n] in fields;
    }
    forall k | 0 <= k < |fieldLines| ensures IsSingleLine(fieldLines[k]) && !IsFrontmatterDelimiter(fieldLines[k]) {
      FieldLineTrimmed(fields[k].0, fields[k].1);
    }
    var lines := ["---"] + fieldLines + ["---"];
    forall k | 0 <= k < |lines| ensures IsSingleLine(lines[k]) {
      if 0 < k < |lines| - 1 {
        assert lines[k] == fieldLines[k - 1];
      }
    }
  }

  /** Between the delimiters lie the field lines, after the closing one the tail. */
  lemma {:induction false} FrontmatterSlices(fieldLines: seq<string>, tail: seq<string>)
    ensures var lines := ["---"] + fieldLines + ["---"] + tail;
            var e := |fieldLines| + 1;
            lines[1..e] == fieldLines && lines[e + 1..] == tail
  {
    var written := ["---"] + fieldLines + ["---"];
    var lines := written + tail;
    var e := |fieldLines| + 1;
    assert lines[e + 1..] == tail;
    assert lines[1..e] == fieldLines by {
      assert forall k :: 1 <= k < e ==> lines[k] == written[k] == fieldLines[k - 1];
    }
  }

  /** A document whose lines are an opening `---`, field lines that parse into a valid record,
      a closing `---` and the body lines is accepted with that record and that body. */
  lemma {:induction false} SkillFileOfParts(directoryPath: string, directoryName: string, content: string,
                                            newline: string, fieldLines: seq<string>, tail: seq<string>,
                                            m: SkillMetadata)
    requires SplitLines(content) == ["---"] + fieldLines + ["---"] + tail
    requires FrontmatterEnd(SplitLines(content)) == Ok(|fieldLines| + 1)
    requires FrontmatterOf(fieldLines) == Ok(m) && IsValidMetadata(m, directoryName)
    ensures SkillFile(directoryPath, directoryName, content, newline) ==
            Ok(SkillDefinition(m, Join(newline, tail), content, directoryPath))
  {
    FrontmatterSlices(fieldLines, tail);
  }

  /** Writing a valid record without `metadata` and with single-line values, then any body, gives
      a document the loader accepts from the record's own directory with that very record: the
      name, description, license, compatibility and allowed tools all come back unchanged, and
      the body is the text after the closing `---`. */
  lemma {:induction false} SerializeRoundTrip(m: SkillMetadata, directoryPath: string, body: string, newline: string)
    requires IsValidMetadata(m, m.name) && m.metadata == map[] && HasSingleLineValues(m)
    ensures SkillFile(directoryPath, m.name, Serialize(m) + body, newline) ==
            Ok(SkillDefinition(m, Join(newline, SplitLines(body)), Serialize(m) + body, directoryPath))
  {
    var fieldLines := FieldLines(FieldsOf(m));
    var written := ["---"] + fieldLines + ["---"];
    var tail := SplitLines(body);
    SerializedLines(m);
    SplitLinesAfterLines(written, body);
    SerializedFrontmatterEnd(fieldLines, tail);
    SerializedFieldsParse(m);
    SkillFileOfParts(directoryPath, m.name, Serialize(m) + body, newline, fieldLines, tail, m);
  }

  /** `ParseSkillFile(directoryName, content)`: split into lines, locate the frontmatter, parse it,
      validate it, and keep the original text as the full content. */
  method ParseSkillFile(directoryPath: string, directoryName: string, content: string, newline: string)
    returns (r: Result<SkillDefinition, SkillError>)
    ensures r == SkillFile(directoryPath, directoryName, content, newline)
  {
    var lines := SplitLines(content);
    if |lines| == 0 || !IsFrontmatterDelimiter(lines[0]) {
      return Err(MissingFrontmatter);
    }

    var endIndex := FindIndex(lines, 1, IsFrontmatterDelimiter);
    if endIndex < 0 {
      return Err(MissingFrontmatterEnd);
    }

    var frontmatterLines := lines[1..endIndex];
    var body := Join(newline, lines[endIndex + 1..]);

    var metadata := ParseFrontmatter(frontmatterLines);
    if metadata.Err? {
      return Err(metadata.error);
    }
    var check := ValidateMetadata(metadata.value, directoryName);
    if check.Fail? {
      return Err(check.error);
    }

    return Ok(SkillDefinition(metadata.value, body, content, directoryPath));
  }

  // -----------------------------------------------------------------------------------------------
  // A skills directory

  /** One subdirectory of the skills directory: its path, its name, and the text of its
      `SKILL.md` when it has one. */
  datatype SkillDirectory = SkillDirectory(path: string, name: string, skillFile: Option<string>)

  predicate DistinctDirectoryNames(dirs: seq<SkillDirectory>) {
    forall i, j :: 0 <= i < j < |dirs| ==> dirs[i].name != dirs[j].name
  }

  /** What one subdirectory contributes: nothing when it has no `SKILL.md`, otherwise the outcome
      of parsing that document. */
  type Document = Option<Result<SkillDefinition, SkillError>>

  predicate IsAccepted(doc: Document) {
    doc.Some? && doc.value.Ok?
  }

  predicate IsRejected(doc: Document) {
    doc.Some? && doc.value.Err?
  }

  function DocumentOf(dir: SkillDirectory, newline: string): Document {
    if dir.skillFile.None? then None
    else Some(SkillFile(dir.path, dir.name, dir.skillFile.value, newline))
  }

  function Documents(dirs: seq<SkillDirectory>, newline: string): (r: seq<Document>)
    ensures |r| == |dirs|
    ensures forall j :: 0 <= j < |dirs| ==> r[j] == DocumentOf(dirs[j], newline)
  {
    seq(|dirs|, j requires 0 <= j < |dirs| => DocumentOf(dirs[j], newline))
  }

  /** `skills` followed by whatever `rest` holds, or the error of `rest`. */
  function AfterPrefix(skills: seq<SkillDefinition>, rest: Result<seq<SkillDefinition>, SkillError>)
    : Result<seq<SkillDefinition>, SkillError>
  {
    match rest
    case Err(e) => Err(e)
    case Ok(more) => Ok(skills + more)
  }

  /** The accepted skills of the documents, in order; a rejected document ends the collection
      with its error. */
  function Collect(docs: seq<Document>): Result<seq<SkillDefinition>, SkillError>
    decreases |docs|
  {
    if docs == [] then Ok([])
    else
      match docs[0]
      case None => Collect(docs[1..])
      case Some(Err(e)) => Err(e)
      case Some(Ok(skill)) => AfterPrefix([skill], Collect(docs[1..]))
  }

  /** What `LoadFromDirectory` collects from the subdirectories. */
  function LoadedSkills(dirs: seq<SkillDirectory>, newline: string): Result<seq<SkillDefinition>, SkillError> {
    Collect(Documents(dirs, newline))
  }

  /** The collection fails exactly when some document is rejected, and then with the error of the
      first rejected one. */
  lemma {:induction false} CollectFailsOnFirstRejected(docs: seq<Document>)
    ensures Collect(docs).Ok? <==> forall j :: 0 <= j < |docs| ==> !IsRejected(docs[j])
    ensures Collect(docs).Err? ==>
              exists j :: && 0 <= j < |docs| && docs[j] == Some(Err(Collect(docs).error))
                          && forall k :: 0 <= k < j ==> !IsRejected(docs[k])
    decreases |docs|
  {
    if docs != [] {
      CollectFailsOnFirstRejected(docs[1..]);
      assert forall j :: 1 <= j < |docs| ==> docs[j] == docs[1..][j - 1];
      if Collect(docs).Err? && !IsRejected(docs[0]) {
        var j :| && 0 <= j < |docs[1..]| && docs[1..][j] == Some(Err(Collect(docs[1..]).error))
                 && forall k :: 0 <= k < j ==> !IsRejected(docs[1..][k]);
        assert docs[j + 1] == Some(Err(Collect(docs).error));
      }
    }
  }

  /** Every collected skill is an accepted document. */
  lemma {:induction false} CollectedAreAccepted(docs: seq<Document>)
    requires Collect(docs).Ok?
    ensures var skills := Collect(docs).value;
            forall i :: 0 <= i < |skills| ==> exists j :: 0 <= j < |docs| && docs[j] == Some(Ok(skills[i]))
    decreases |docs|
  {
    if docs != [] {
      CollectedAreAccepted(docs[1..]);
      var skills := Collect(docs).value;
      var rest := Collect(docs[1..]).value;
      var shift := if docs[0].Some? then 1 else 0;
      assert skills[shift..] == rest;
      forall i | shift <= i < |skills| ensures exists j :: 0 <= j < |docs| && docs[j] == Some(Ok(skills[i])) {
        assert skills[i] == rest[i - shift];
        var j :| 0 <= j < |docs[1..]| && docs[1..][j] == Some(Ok(rest[i - shift]));
        assert docs[j + 1] == Some(Ok(skills[i]));
      }
    }
  }

  predicate AcceptedNamesDistinct(docs: seq<Document>) {
    forall j, k :: 0 <= j < k < |docs| && IsAccepted(docs[j]) && IsAccepted(docs[k]) ==>
      docs[j].value.value.metadata.name != docs[k].value.value.metadata.name
  }

  /** Accepted documents with distinct names collect into a list without duplicate names. */
  lemma {:induction false} CollectUniqueNames(docs: seq<Document>)
    requires Collect(docs).Ok? && AcceptedNamesDistinct(docs)
    ensures UniqueNames(Collect(docs).value)
    decreases |docs|
  {
    if docs != [] {
      var tail := docs[1..];
      assert AcceptedNamesDistinct(tail) by {
        forall j, k | 0 <= j < k < |tail| ensures tail[j] == docs[j + 1] && tail[k] == docs[k + 1] {}
      }
      CollectUniqueNames(tail);
      if docs[0].Some? {
        var skills := Collect(docs).value;
        var rest := Collect(tail).value;
        CollectedAreAccepted(tail);
        forall i | 0 <= i < |rest| ensures rest[i].metadata.name != skills[0].metadata.name {
          var j :| 0 <= j < |tail| && tail[j] == Some(Ok(rest[i]));
          assert docs[j + 1] == tail[j];
        }
        forall i, j | 0 <= i < j < |skills| ensures skills[i].metadata.name != skills[j].metadata.name {
          assert skills[j] == rest[j - 1];
          if i > 0 {
            assert skills[i] == rest[i - 1];
          }
        }
      }
    }
  }

  /** An accepted document is named after its own subdirectory and has valid metadata. */
  lemma AcceptedDocument(dir: SkillDirectory, newline: string)
    requires IsAccepted(DocumentOf(dir, newline))
    ensures var skill := DocumentOf(dir, newline).value.value;
            && skill.metadata.name == dir.name
            && IsValidMetadata(skill.metadata, dir.name)
            && skill.fullContent == dir.skillFile.value
  {
    SkillFileAcceptedIsValid(dir.path, dir.name, dir.skillFile.value, newline);
  }

  /** Every loaded skill comes from a subdirectory with a `SKILL.md` of which it is the parse, is
      named after that subdirectory and passed validation. */
  lemma LoadedSkillsComeFromDirectories(dirs: seq<SkillDirectory>, newline: string)
    requires LoadedSkills(dirs, newline).Ok?
    ensures var skills := LoadedSkills(dirs, newline).value;
            forall i :: 0 <= i < |skills| ==>
              && IsValidMetadata(skills[i].metadata, skills[i].metadata.name)
              && exists j :: && 0 <= j < |dirs| && dirs[j].skillFile.Some?
                             && skills[i].metadata.name == dirs[j].name
                             && skills[i].fullContent == dirs[j].skillFile.value
  {
    var docs := Documents(dirs, newline);
    var skills := Collect(docs).value;
    CollectedAreAccepted(docs);
    forall i | 0 <= i < |skills|
      ensures && IsValidMetadata(skills[i].metadata, skills[i].metadata.name)
              && exists j :: && 0 <= j < |dirs| && dirs[j].skillFile.Some?
                             && skills[i].metadata.name == dirs[j].name
                             && skills[i].fullContent == dirs[j].skillFile.value
    {
      var j :| 0 <= j < |docs| && docs[j] == Some(Ok(skills[i]));
      AcceptedDocument(dirs[j], newline);
    }
  }

  /** Distinct subdirectories yield distinctly named skills, since each skill is named after its
      own subdirectory; so the catalog built from a load never meets a duplicate name. */
  lemma LoadedSkillsUniqueNames(dirs: seq<SkillDirectory>, newline: string)
    requires DistinctDirectoryNames(dirs) && LoadedSkills(dirs, newline).Ok?
    ensures UniqueNames(LoadedSkills(dirs, newline).value)
  {
    var docs := Documents(dirs, newline);
    forall j, k | 0 <= j < k < |docs| && IsAccepted(docs[j]) && IsAccepted(docs[k])
      ensures docs[j].value.value.metadata.name != docs[k].value.value.metadata.name
    {
      AcceptedDocument(dirs[j], newline);
      AcceptedDocument(dirs[k], newline);
    }
    CollectUniqueNames(docs);
  }

  /** Why `LoadFromDirectory` throws: the directory is missing, a skill document is rejected, or
      two skills share a name when the catalog indexes them. */
  datatype LoadError =
    | DirectoryNotFound(path: string)
    | InvalidSkill(error: SkillError)
    | DuplicateSkill(duplicate: CatalogError)

  lemma AfterNoPrefix(rest: Result<seq<SkillDefinition>, SkillError>)
    ensures AfterPrefix([], rest) == rest
  {
    if rest.Ok? {
      assert [] + rest.value == rest.value;
    }
  }

  lemma AfterLongerPrefix(skills: seq<SkillDefinition>, skill: SkillDefinition,
                          rest: Result<seq<SkillDefinition>, SkillError>)
    ensures AfterPrefix(skills, AfterPrefix([skill], rest)) == AfterPrefix(skills + [skill], rest)
  {
    if rest.Ok? {
      assert skills + ([skill] + rest.value) == skills + [skill] + rest.value;
    }
  }

  /** One document of the collection, from position `k`. */
  lemma CollectStep(docs: seq<Document>, k: nat)
    requires k < |docs|
    ensures Collect(docs[k..]) ==
              match docs[k]
              case None => Collect(docs[k + 1..])
              case Some(Err(e)) => Err(e)
              case Some(Ok(skill)) => AfterPrefix([skill], Collect(docs[k + 1..]))
  {
    assert docs[k..][1..] == docs[k + 1..];
  }

  /** `LoadFromDirectory(skillsDirectory)`. The file system is replaced by `listing`: `None` when
      the directory does not exist, otherwise its subdirectories in enumeration order, each with
      the text of its `SKILL.md` when that file exists. Subdirectories without the file are
      skipped, the first rejected document ends the load, and the accepted skills become a
      catalog in directory order. */
  method LoadFromDirectory(skillsDirectory: string, listing: Option<seq<SkillDirectory>>, newline: string)
    returns (r: Result<SkillCatalog, LoadError>)
    ensures listing.None? ==> r == Err(DirectoryNotFound(skillsDirectory))
    ensures listing.Some? && LoadedSkills(listing.value, newline).Err? ==>
              r == Err(InvalidSkill(LoadedSkills(listing.value, newline).error))
    ensures listing.Some? && LoadedSkills(listing.value, newline).Ok? ==>
              var skills := LoadedSkills(listing.value, newline).value;
              && (r.Ok? <==> UniqueNames(skills))
              && (r.Ok? ==> fresh(r.value) && r.value.Valid() && r.value.skills == skills)
              && (r.Err? ==> r.error.DuplicateSkill?)
  {
    if listing.None? {
      return Err(DirectoryNotFound(skillsDirectory));
    }
    var directories := listing.value;
    ghost var docs := Documents(directories, newline);
    var skills: seq<SkillDefinition> := [];
    assert docs[0..] == docs;
    AfterNoPrefix(Collect(docs));
    for k := 0 to |directories|
      invariant Collect(docs) == AfterPrefix(skills, Collect(docs[k..]))
    {
      var directory := directories[k];
      CollectStep(docs, k);
      if directory.skillFile.None? {
        continue;
      }
      var skill := ParseSkillFile(directory.path, directory.name, directory.skillFile.value, newline);
      if skill.Err? {
        return Err(InvalidSkill(skill.error));
      }
      AfterLongerPrefix(skills, skill.value, Collect(docs[k + 1..]));
      skills := skills + [skill.value];
    }
    assert docs[|directories|..] == [];
    assert skills + [] == skills;
    var catalog := SkillCatalog.Create(skills);
    if catalog.Err? {
      return Err(DuplicateSkill(catalog.error));
    }
    return Ok(catalog.value);
  }
}
