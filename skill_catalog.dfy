/**
 * The skill records and the catalog that holds them: an ordered list of skills plus an
 * index by name (ordinal, case-sensitive), built once and never changed afterwards.
 */
module Catalog {
  import opened Wrappers
  import opened Text

  /** The frontmatter of one skill document. Absent optional fields are `None` (C# null). */
  datatype SkillMetadata = SkillMetadata(
    name: string,
    description: string,
    license: Option<string>,
    compatibility: Option<string>,
    metadata: map<string, string>,
    allowedTools: Option<string>)

  /** A parsed skill: its metadata, the text after the frontmatter, the whole original document
      and the directory it came from. */
  datatype SkillDefinition = SkillDefinition(
    metadata: SkillMetadata,
    body: string,
    fullContent: string,
    directoryPath: string)

  /** The exception `ToDictionary` throws when two skills share a name. */
  datatype CatalogError = DuplicateSkillName(name: string)

  predicate UniqueNames(skills: seq<SkillDefinition>) {
    forall i, j :: 0 <= i < j < |skills| ==> skills[i].metadata.name != skills[j].metadata.name
  }

  predicate HasSkillNamed(skills: seq<SkillDefinition>, name: string) {
    exists i :: 0 <= i < |skills| && skills[i].metadata.name == name
  }

  /** `index` maps exactly the names in `skills`, each to the skill that carries it. */
  predicate IndexesByName(index: map<string, SkillDefinition>, skills: seq<SkillDefinition>) {
    && (forall n :: n in index ==> HasSkillNamed(skills, n))
    && (forall i :: 0 <= i < |skills| ==>
          skills[i].metadata.name in index && index[skills[i].metadata.name] == skills[i])
  }

  /** `skills.ToDictionary(skill => skill.Metadata.Name, StringComparer.Ordinal)`: adds the skills
      in order and fails on the first name that is already a key. */
  method ToDictionary(skills: seq<SkillDefinition>) returns (r: Result<map<string, SkillDefinition>, CatalogError>)
    ensures r.Ok? <==> UniqueNames(skills)
    ensures r.Ok? ==> IndexesByName(r.value, skills)
    ensures r.Err? ==> exists i, j :: 0 <= i < j < |skills| &&
                         skills[i].metadata.name == r.error.name && skills[j].metadata.name == r.error.name
  {
    var index: map<string, SkillDefinition> := map[];
    var k := 0;
    while k < |skills|
      invariant 0 <= k <= |skills|
      invariant forall i, j :: 0 <= i < j < k ==> skills[i].metadata.name != skills[j].metadata.name
      invariant forall n :: n in index ==> exists i :: 0 <= i < k && skills[i].metadata.name == n
      invariant forall i :: 0 <= i < k ==> skills[i].metadata.name in index && index[skills[i].metadata.name] == skills[i]
    {
      var name := skills[k].metadata.name;
      if name in index {
        return Err(DuplicateSkillName(name));
      }
      index := index[name := skills[k]];
      k := k + 1;
    }
    return Ok(index);
  }

  const Header := "Available skills:"

  /** The summary line of one skill. */
  function Entry(skill: SkillDefinition): string {
    "- " + skill.metadata.name + ": " + skill.metadata.description
  }

  /** The summary lines of the skills, in order. */
  function Entries(skills: seq<SkillDefinition>): (r: seq<string>)
    ensures |r| == |skills|
    ensures forall i :: 0 <= i < |skills| ==> r[i] == Entry(skills[i])
  {
    seq(|skills|, i requires 0 <= i < |skills| => Entry(skills[i]))
  }

  lemma LinesOfPrefix(skills: seq<SkillDefinition>, k: nat)
    requires k < |skills|
    ensures [Header] + Entries(skills[..k + 1]) == [Header] + Entries(skills[..k]) + [Entry(skills[k])]
  {
  }

  /** The prompt section: nothing for no skills, else the header and one line per skill,
      with trailing white space trimmed. */
  function PromptSection(skills: seq<SkillDefinition>, newline: string): string {
    if skills == [] then ""
    else TrimEnd(Terminated([Header] + Entries(skills), newline))
  }

  class SkillCatalog {
    /** `Skills`, in the order they were given. */
    const skills: seq<SkillDefinition>
    /** `skillsByName`. */
    const skillsByName: map<string, SkillDefinition>

    ghost predicate Valid() {
      UniqueNames(skills) && IndexesByName(skillsByName, skills)
    }

    /** Stores the list and the index that `Create` built from it. */
    constructor FromIndex(skills: seq<SkillDefinition>, index: map<string, SkillDefinition>)
      requires UniqueNames(skills) && IndexesByName(index, skills)
      ensures Valid() && this.skills == skills && skillsByName == index
    {
      this.skills := skills;
      this.skillsByName := index;
    }

    /** `new SkillCatalog(skills)`: keeps the list as given and indexes it by name; fails, as
        `ToDictionary` throws, when two skills share a name. */
    static method Create(skills: seq<SkillDefinition>) returns (r: Result<SkillCatalog, CatalogError>)
      ensures r.Ok? <==> UniqueNames(skills)
      ensures r.Ok? ==> fresh(r.value) && r.value.Valid() && r.value.skills == skills
      ensures r.Err? ==> exists i, j :: 0 <= i < j < |skills| &&
                           skills[i].metadata.name == r.error.name && skills[j].metadata.name == r.error.name
    {
      var index := ToDictionary(skills);
      if index.Err? {
        return Err(index.error);
      }
      var catalog := new SkillCatalog.FromIndex(skills, index.value);
      return Ok(catalog);
    }

    /** `IsEmpty`: true exactly when the catalog holds no skill. */
    function IsEmpty(): (b: bool)
      ensures b <==> skills == []
    {
      |skills| == 0
    }

    /** `TryGetSkill(name, out skill)`: the skill whose name is exactly `name`, if there is one. */
    function TryGetSkill(name: string): (r: Option<SkillDefinition>)
      requires Valid()
      ensures r.Some? <==> HasSkillNamed(skills, name)
      ensures forall i :: 0 <= i < |skills| && skills[i].metadata.name == name ==> r == Some(skills[i])
    {
      if name in skillsByName then Some(skillsByName[name]) else None
    }

    /** `BuildMetadataPromptSection()`: appends a header line and one line per skill to a
        builder, then trims the end. */
    method BuildMetadataPromptSection(newline: string) returns (section: string)
      ensures section == PromptSection(skills, newline)
    {
      if |skills| == 0 {
        return "";
      }
      var builder := "";
      builder := builder + Header + newline;
      for k := 0 to |skills|
        invariant builder == Terminated([Header] + Entries(skills[..k]), newline)
      {
        LinesOfPrefix(skills, k);
        TerminatedSnoc([Header] + Entries(skills[..k]), Entry(skills[k]), newline);
        builder := builder + Entry(skills[k]) + newline;
      }
      assert skills[..|skills|] == skills;
      section := TrimEnd(builder);
    }
  }

  // -----------------------------------------------------------------------------------------------
  // Properties of the summary

  /** The summary is empty exactly when the catalog is. */
  lemma PromptSectionEmptyIff(skills: seq<SkillDefinition>, newline: string)
    ensures PromptSection(skills, newline) == "" <==> skills == []
  {
    if skills != [] {
      var parts := [Header] + Entries(skills);
      TerminatedJoin(parts, newline);
      var s := Terminated(parts, newline);
      assert parts[0] == Header;
      assert s[0] == 'A';
      SkipWhiteSpaceBackSpec(s, |s|);
    }
  }

  predicate EndsWithNonWhiteSpace(s: string) {
    s != [] && !IsWhiteSpace(s[|s| - 1])
  }

  lemma EndsWithNonWhiteSpaceAppend(a: string, b: string)
    requires EndsWithNonWhiteSpace(b)
    ensures EndsWithNonWhiteSpace(a + b)
  {
    assert (a + b)[|a + b| - 1] == b[|b| - 1];
  }

  /** A join ends with its last piece. */
  lemma {:induction false} JoinEndsWithLast(sep: string, parts: seq<string>)
    requires parts != [] && EndsWithNonWhiteSpace(parts[|parts| - 1])
    ensures EndsWithNonWhiteSpace(Join(sep, parts))
    decreases |parts|
  {
    if |parts| > 1 {
      JoinEndsWithLast(sep, parts[1..]);
      EndsWithNonWhiteSpaceAppend(parts[0] + sep, Join(sep, parts[1..]));
    }
  }

  /** When the last description does not end in white space, the final trim removes only the
      last newline: the summary is the header and the entry lines, joined by the newline. */
  lemma PromptSectionLines(skills: seq<SkillDefinition>, newline: string)
    requires skills != [] && IsNewLine(newline)
    requires EndsWithNonWhiteSpace(skills[|skills| - 1].metadata.description)
    ensures PromptSection(skills, newline) == Join(newline, [Header] + Entries(skills))
  {
    var parts := [Header] + Entries(skills);
    var x := Join(newline, parts);
    TerminatedJoin(parts, newline);
    TrimEndBlankSuffix(x, newline);
    var last := skills[|skills| - 1];
    EndsWithNonWhiteSpaceAppend("- " + last.metadata.name + ": ", last.metadata.description);
    assert parts[|parts| - 1] == Entry(last);
    JoinEndsWithLast(newline, parts);
  }

  /** With "\n" as the newline and no line break inside any entry, splitting the summary into
      lines gives the header followed by one entry per skill, in catalog order. */
  lemma PromptSectionSplitsIntoEntries(skills: seq<SkillDefinition>)
    requires skills != []
    requires EndsWithNonWhiteSpace(skills[|skills| - 1].metadata.description)
    requires forall i :: 0 <= i < |skills| ==> '\n' !in Entry(skills[i])
    ensures Split(PromptSection(skills, "\n"), '\n') == [Header] + Entries(skills)
  {
    PromptSectionLines(skills, "\n");
    var parts := [Header] + Entries(skills);
    forall k | 0 <= k < |parts| ensures '\n' !in parts[k] {
      if k > 0 {
        assert parts[k] == Entry(skills[k - 1]);
      }
    }
    SplitJoin(parts, '\n');
  }

  /** The summary is empty exactly when `IsEmpty` holds. */
  lemma EmptyCatalogHasEmptySummary(catalog: SkillCatalog, newline: string)
    ensures catalog.IsEmpty() <==> PromptSection(catalog.skills, newline) == ""
  {
    PromptSectionEmptyIff(catalog.skills, newline);
  }
}
