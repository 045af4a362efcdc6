# SharpClaw skills and chat ledger, in Dafny

This project models three parts of SharpClaw, a command-line assistant built on a chat model.

- **The skill loader** (`SkillLoader`). It reads a skills directory. Each subdirectory may hold a `SKILL.md` document that opens with a `---` frontmatter block. The block holds `key: value` fields and an optional indented `metadata:` block. The loader parses each document, validates the skill's name, description and compatibility note, and builds a catalog from the skills it accepts.
- **The skill catalog** (`Catalog`). It holds the skills in load order and indexes them by exact name. It answers lookups and renders the "Available skills:" summary that goes into the system prompt.
- **The chat ledger of `ChatClient`** (`Chat`). It keeps the conversation history. The history starts with one system message. Each prompt appends the user's message and then the model's reply, except that streamed replies are never appended. The transcript renderer leaves system messages out.

Files:

- `wrappers.dfy`: `Option`, `Result` and `Outcome`. They stand in for C# nulls and thrown exceptions.
- `text.dfy`: the .NET string operations the code relies on, each with its properties. These are `char.IsWhiteSpace`, `Trim`, `IndexOf`, `Split`, `string.Join`, the CRLF rewrite, and ordinal and ignore-case comparison.
- `skill_catalog.dfy`: the records and the `SkillCatalog` class.
- `skill_loader.dfy`: one document from text to record, the validation rules, and the load of a directory listing.
- `chat_client.dfy`: the `ChatClient` class over an abstract model, and its transcript.

Model notes:

- Where the code changes state, the model does too. `ParseFrontmatter` and the inner `metadata:` loop are index-driven loops over two dictionaries, including the step back with `i--`. `GetIndentation` counts in a loop. `BuildMetadataPromptSection` appends to a builder, and `LoadFromDirectory` appends to a list. `ChatClient` is a class whose `chatHistory` field each prompt extends.
- The methods outside `ChatClient` are proved against specification functions. `ParseFrontmatter` returns exactly `FrontmatterOf` (built from `ScanFields` and `ScanMetadata`). `GetIndentation` returns `Indentation`. `BuildMetadataPromptSection` returns `PromptSection`. `ParseSkillFile` returns `SkillFile`. `LoadFromDirectory` builds its catalog from `LoadedSkills`, or fails with its error or on a duplicate name. `ToDictionary` is tied to the skill list by `UniqueNames` and `IndexesByName`.
- The `ChatClient` methods `Prompt`, `PromptStructured` and `StreamPrompt` state the new history directly, in terms of the old one. The function `GetChatHistoryString` is specified by `Transcript`.
- `ParseFrontmatter`'s loop body is split into separate methods. `ParseFrontmatterLine` is one turn of the outer loop. `ParseMetadataSection` and `ParseMetadataBlock` are the `metadata:` branch and its inner loop. `ParseFieldLine` is the `key: value` branch. Each C# `continue` becomes a return of the index the loop goes on from.
- The scan specification works on `LineReading`s. A reading records, for one line, whether it is blank, its indentation, and whether its trimmed text is a comment or a `metadata:` header. It also holds the line's key/value split. The loops compute exactly these values from the line itself (`ReadingOf`, `EntryOf`).

## Model

| member | source | states |
|---|---|---|
| Text.TrimSpec | src/SharpClawLib/SkillLoader.cs:65 | `Trim` gives the empty text exactly for blank text; otherwise the result starts and ends with non-white space; it is the text with its leading and trailing white space removed |
| Text.Utf16LengthCounts | src/SharpClawLib/SkillLoader.cs:140 | `Length` counts UTF-16 code units: it equals the number of characters exactly when none of them lies outside the Basic Multilingual Plane |
| Text.SkipWhiteSpaceSpec | src/SharpClawLib/SkillLoader.cs:215 | the run of white space from a position ends at the first non-white-space character or at the end |
| Text.IndexOfSpec | src/SharpClawLib/SkillLoader.cs:185 | `IndexOf` is -1 exactly when the character is absent, and otherwise is its first position |
| Text.EqualsIgnoreCaseIff | src/SharpClawLib/SkillLoader.cs:71 | two texts are equal ignoring case exactly when their case-folded forms are equal, which is how the ignore-case dictionary keys them |
| Text.ReplaceCrLfChangesIff | src/SharpClawLib/SkillLoader.cs:223 | rewriting CRLF to LF changes the text exactly when it contains a CRLF pair |
| Text.ReplaceCrLfLine | src/SharpClawLib/SkillLoader.cs:223 | a line without LF that does not end in CR, followed by an LF, comes through the CRLF rewrite unchanged, whatever follows it |
| Text.JoinSplit | src/SharpClawLib/SkillLoader.cs:223 | splitting at a character and joining with it again gives the original text |
| Text.TerminatedJoin | src/OpenBotLib/SkillCatalog.cs:44-50 | one `AppendLine` per part leaves the parts joined by the newline, plus a final newline |
| SkillLoader.SplitLines | src/SharpClawLib/SkillLoader.cs:223 | there is one more line than the text has LFs, and no line contains an LF |
| SkillLoader.SplitLinesJoin | src/SharpClawLib/SkillLoader.cs:223 | for text without CRLF, joining the lines with LF gives the text back |
| SkillLoader.PaddedDelimiter | src/SharpClawLib/SkillLoader.cs:225 | `---` with any surrounding white space is a frontmatter delimiter |
| SkillLoader.FindIndexFindsFirst | src/SharpClawLib/SkillLoader.cs:37 | `Array.FindIndex` from a start gives the first matching index, or -1 when nothing from there on matches |
| SkillLoader.GetIndentation | src/SharpClawLib/SkillLoader.cs:212-221 | the counting loop returns the length of the line's leading white space |
| SkillLoader.UnquoteSpec | src/SharpClawLib/SkillLoader.cs:198-210 | `Unquote` changes a value exactly when it is wrapped in a matching pair of `"` or `'`, and then removes only that pair |
| SkillLoader.UnquoteQuoted | src/SharpClawLib/SkillLoader.cs:198-210 | quoting any text with either quote character and unquoting it gives the text back |
| SkillLoader.SplitKeyValue | src/SharpClawLib/SkillLoader.cs:183-196 | a rejected line's error carries the line itself |
| SkillLoader.SplitKeyValueSpec | src/SharpClawLib/SkillLoader.cs:185-189 | a line is rejected exactly when it has no colon or starts with one; an accepted key holds no colon |
| SkillLoader.SplitKeyValueAtFirstColon | src/SharpClawLib/SkillLoader.cs:185-195 | the line is cut at its first colon into the trimmed key and the trimmed, unquoted rest, whatever colons the rest holds |
| SkillLoader.ScanFieldsSkipsLine | src/SharpClawLib/SkillLoader.cs:60-69 | blank and `#` comment lines at the top level are passed over |
| SkillLoader.ScanFieldsOpensBlock | src/SharpClawLib/SkillLoader.cs:71-74 | a `metadata:` line starts a block that is measured against the header's own indentation |
| SkillLoader.ScanFieldsReadsField | src/SharpClawLib/SkillLoader.cs:103-104 | any other top-level line is stored under its case-folded key, or fails with that line's error |
| SkillLoader.ReadingOf | src/SharpClawLib/SkillLoader.cs:59-71 | the blank, indentation, comment and header facts the loops test are the line's own |
| SkillLoader.EntryOf | src/SharpClawLib/SkillLoader.cs:96 | the key/value split the loops use is `SplitKeyValue` of the trimmed line |
| SkillLoader.ParseMetadataBlock | src/SharpClawLib/SkillLoader.cs:75-98 | the inner loop computes exactly what the block scan gives: its entries, and the index one before the line that closed the block (or the end), or the scan's error |
| SkillLoader.ParseMetadataSection | src/SharpClawLib/SkillLoader.cs:71-101 | the `metadata:` branch leaves the outer loop where the scan from the header continues |
| SkillLoader.ParseFieldLine | src/SharpClawLib/SkillLoader.cs:103-104 | the field branch records the field exactly as the scan does, or fails as it does |
| SkillLoader.ParseFrontmatterLine | src/SharpClawLib/SkillLoader.cs:59-104 | one turn of the outer loop moves forward and keeps the result of the scan from the current index unchanged |
| SkillLoader.ParseFrontmatter | src/SharpClawLib/SkillLoader.cs:52-120 | the two-loop parse returns exactly `FrontmatterOf` of the lines |
| SkillLoader.FrontmatterErrorNamesLine | src/SharpClawLib/SkillLoader.cs:186-189 | frontmatter is rejected only for a line without a key before a colon, and the error carries that trimmed line |
| SkillLoader.LaterDuplicateFieldWins | src/SharpClawLib/SkillLoader.cs:57-104 | a field line that a later top-level line with the same name in any case overrides leaves no trace in the result, whatever follows, and whatever closed `metadata:` blocks lie in between |
| SkillLoader.OverwrittenFieldForgotten | src/SharpClawLib/SkillLoader.cs:57-104 | a field value is forgotten once a later line read at the top level sets the same key, across blank, comment and field lines and closed `metadata:` blocks |
| SkillLoader.LastFieldValueSpec | src/SharpClawLib/SkillLoader.cs:103-104 | the last value of a field is absent exactly when no line sets it, and otherwise is the value of the last line that does |
| SkillLoader.FlatScanFields | src/SharpClawLib/SkillLoader.cs:57-105 | frontmatter without `metadata:` blocks never fails, adds no metadata, and leaves every field with the value of the last line that sets it |
| SkillLoader.FlatFrontmatterRecord | src/SharpClawLib/SkillLoader.cs:52-120 | frontmatter without `metadata:` blocks never fails and has no metadata; each of the five fields is the value of the last line that sets it, names compared ignoring case; a missing name or description is empty, other missing fields are absent |
| SkillLoader.FrontmatterRecord | src/SharpClawLib/SkillLoader.cs:52-120 | for any frontmatter that parses, `metadata:` blocks included, each of the five fields is the value of the last line read at the top level that sets it, never a line inside a block; a missing name or description is empty, other missing fields are absent |
| SkillLoader.ScanFieldsTopLevel | src/SharpClawLib/SkillLoader.cs:57-105 | a successful scan leaves each field with the value of the last top-level line that sets it, or as it was; lines inside blocks set no field |
| SkillLoader.TopLevelValueSpec | src/SharpClawLib/SkillLoader.cs:57-105 | the top-level value of a field is absent exactly when no line the scan reaches at the top level sets it, and otherwise is the value of the last such line |
| SkillLoader.TopLevelValueOfFlat | src/SharpClawLib/SkillLoader.cs:57-105 | without `metadata:` blocks every line is read at the top level, so the top-level value is the last value of any line |
| SkillLoader.BlockEnd | src/SharpClawLib/SkillLoader.cs:75-88 | a block runs over the lines it takes in (blank, or deeper comments and entries) and ends at the first line it does not take in, or at the end |
| SkillLoader.FlatReachesTopLevel | src/SharpClawLib/SkillLoader.cs:57-104 | over blank, comment and field lines only, the scan reaches every line at the top level |
| SkillLoader.NameFieldIgnoresCase | src/SharpClawLib/SkillLoader.cs:54-107 | a field called `name` in any mix of case sets the skill's name |
| SkillLoader.UnknownFieldIgnored | src/SharpClawLib/SkillLoader.cs:107-119 | a field other than the five known ones changes nothing in the record |
| SkillLoader.FoldedKeys | src/SharpClawLib/SkillLoader.cs:107-111 | the five field names fold to the keys the record is read from |
| SkillLoader.BlankLinesSkipped | src/SharpClawLib/SkillLoader.cs:60-63 | any run of blank lines at the top level is passed over |
| SkillLoader.MissingFieldsDefault | src/SharpClawLib/SkillLoader.cs:107-119 | frontmatter of blank lines, comments and unknown fields only gives an empty name and description, no optional fields and no metadata |
| SkillLoader.BlankLinesInBlock | src/SharpClawLib/SkillLoader.cs:78-81 | any run of blank lines inside a `metadata:` block is passed over, whatever its indentation |
| SkillLoader.ClosingLineReadAgain | src/SharpClawLib/SkillLoader.cs:75-101 | after any block of lines deeper than the header, the first non-blank line no deeper than the header ends the block with the block's entries added, and is read again at the top level, not dropped |
| SkillLoader.BlockBody | src/SharpClawLib/SkillLoader.cs:75-98 | lines a block takes in only add their entries to the metadata and set no field |
| SkillLoader.BlockRunsToEnd | src/SharpClawLib/SkillLoader.cs:71-101 | a block that runs to the end of the frontmatter ends the scan successfully with its entries added and the fields untouched |
| SkillLoader.DeeperLineIsMetadataEntry | src/SharpClawLib/SkillLoader.cs:90-97 | a deeper `key: value` line becomes a metadata entry under its key as written, and the block goes on |
| SkillLoader.KebabCaseIff | src/SharpClawLib/SkillLoader.cs:150-167 | the three character checks together accept exactly kebab case: lower-case words of letters and digits joined by single hyphens |
| SkillLoader.ValidateName | src/SharpClawLib/SkillLoader.cs:133-168 | a name passes exactly when it is kebab case, at most 64 UTF-16 code units long, and equal to the directory's name |
| SkillLoader.ValidateNameReportsFirstBrokenRule | src/SharpClawLib/SkillLoader.cs:133-148 | the missing-name, length and directory errors are each reported exactly when their rule is the first one broken, in that order |
| SkillLoader.ValidateNameReportsShapeRule | src/SharpClawLib/SkillLoader.cs:150-167 | past those, a hyphen at either end is reported first, then `--`, then a character outside `a-z`, `0-9` and `-`, each exactly when it is the first broken rule |
| SkillLoader.ValidNameLength | src/SharpClawLib/SkillLoader.cs:140-167 | a valid name is plain ASCII, so its length in code units is its number of characters, at most 64 |
| SkillLoader.ValidateDescription | src/SharpClawLib/SkillLoader.cs:170-181 | a description passes exactly when it is not blank and at most 1024 UTF-16 code units long |
| SkillLoader.ValidateDescriptionReportsFirstBrokenRule | src/SharpClawLib/SkillLoader.cs:170-181 | a missing description is reported exactly when it is blank; the length error exactly when it is present and over 1024 code units |
| SkillLoader.ValidateMetadata | src/SharpClawLib/SkillLoader.cs:122-131 | metadata passes exactly when every rule holds; a present, non-blank compatibility note is at most 500 UTF-16 code units long |
| SkillLoader.ValidateMetadataOrder | src/SharpClawLib/SkillLoader.cs:122-131 | the name is checked first, then the description, then the compatibility note |
| SkillLoader.NameMismatchAlwaysFails | src/SharpClawLib/SkillLoader.cs:145-148 | a name that differs from its directory is always rejected, and with the mismatch error once it is present and of legal length |
| SkillLoader.FrontmatterEndFindsFirstDelimiter | src/SharpClawLib/SkillLoader.cs:31-41 | the document must open with a delimiter and the frontmatter closes at the first later one; either missing gives its own error |
| SkillLoader.SkillFileOutcome | src/SharpClawLib/SkillLoader.cs:29-50 | delimiter errors come before any field is read; otherwise a document is accepted exactly when its frontmatter parses and validates, with the body joined by the newline and the full text kept |
| SkillLoader.SkillFileAcceptedIsValid | src/SharpClawLib/SkillLoader.cs:29-50 | an accepted skill is named after its directory, passes every rule and keeps the document's text |
| SkillLoader.ParseSkillFile | src/SharpClawLib/SkillLoader.cs:29-50 | the method returns exactly `SkillFile` of the document |
| SkillLoader.SplitLinesCons | src/SharpClawLib/SkillLoader.cs:223 | a single line followed by an LF is split off as the first line, whatever follows |
| SkillLoader.SplitLinesAfterLines | src/SharpClawLib/SkillLoader.cs:223 | single lines each ended by an LF split back into those lines, followed by the lines of what comes after |
| SkillLoader.FieldLineReading | src/SharpClawLib/SkillLoader.cs:59-104 | a line written as `key: "value"` is read as that field: not blank, not indented, not a comment or header, and it splits back into the key and the value without quotes |
| SkillLoader.FieldLinesParse | src/SharpClawLib/SkillLoader.cs:52-120 | written field lines parse into the record whose five fields are the last values written for them |
| SkillLoader.SerializedFieldsParse | src/SharpClawLib/SkillLoader.cs:52-120 | the field lines written for a record without metadata parse back into that same record |
| SkillLoader.SkillFileOfParts | src/SharpClawLib/SkillLoader.cs:29-50 | a document of an opening `---`, field lines parsing into a valid record, a closing `---` and body lines is accepted with that record and that body |
| SkillLoader.SerializeRoundTrip | src/SharpClawLib/SkillLoader.cs:29-120 | a valid record without metadata and with single-line values, written as a document, loads back from its own directory as that very record, with the text after the closing `---` as its body and the full text kept |
| SkillLoader.CollectFailsOnFirstRejected | src/SharpClawLib/SkillLoader.cs:13-24 | loading fails exactly when some document is rejected, and then with the first rejected document's error |
| SkillLoader.CollectedAreAccepted | src/SharpClawLib/SkillLoader.cs:13-24 | every loaded skill is the parse of an accepted document |
| SkillLoader.CollectUniqueNames | src/SharpClawLib/SkillLoader.cs:12-26 | accepted documents with distinct names load into a list without duplicate names |
| SkillLoader.LoadedSkillsComeFromDirectories | src/SharpClawLib/SkillLoader.cs:13-23 | every loaded skill passed validation, and comes from a subdirectory with a `SKILL.md` whose name it carries and whose text it keeps |
| SkillLoader.LoadedSkillsUniqueNames | src/SharpClawLib/SkillLoader.cs:13-26 | subdirectories with distinct names never yield a duplicate skill name |
| SkillLoader.LoadFromDirectory | src/SharpClawLib/SkillLoader.cs:5-27 | a missing directory fails first; a rejected document fails with its error; otherwise the catalog holds the loaded skills in order, or the load fails on a duplicate name |
| Catalog.ToDictionary | src/OpenBotLib/SkillCatalog.cs:27 | indexing succeeds exactly when the names are unique; the index maps each name to its skill and holds no other key; a failure names a name two skills share |
| Catalog.SkillCatalog.Create | src/OpenBotLib/SkillCatalog.cs:23-28 | a catalog is built exactly when the names are unique, keeps the list as given, and its index agrees with the list |
| Catalog.SkillCatalog.IsEmpty | src/OpenBotLib/SkillCatalog.cs:32 | true exactly when the catalog holds no skill |
| Catalog.SkillCatalog.TryGetSkill | src/OpenBotLib/SkillCatalog.cs:34 | finds a skill exactly when one has that exact name, and then returns that skill |
| Catalog.SkillCatalog.BuildMetadataPromptSection | src/OpenBotLib/SkillCatalog.cs:36-51 | the builder loop produces `PromptSection` of the skills |
| Catalog.PromptSectionEmptyIff | src/OpenBotLib/SkillCatalog.cs:36-51 | the summary is empty exactly when there are no skills |
| Catalog.PromptSectionLines | src/OpenBotLib/SkillCatalog.cs:43-50 | when the last description does not end in white space, the summary is the header and one `- name: description` line per skill, joined by the newline |
| Catalog.PromptSectionSplitsIntoEntries | src/OpenBotLib/SkillCatalog.cs:44-50 | when no skill's line holds an LF, splitting that summary at LF gives back the header and the skills' lines, in catalog order |
| Catalog.EmptyCatalogHasEmptySummary | src/OpenBotLib/SkillCatalog.cs:32-41 | `IsEmpty` holds exactly when the summary is empty |
| Chat.OptionsFor | src/OpenBotLib/ChatClient.cs:35-41 | options exist exactly for a non-empty tool list, and carry those tools |
| Chat.ChatClient.constructor | src/OpenBotLib/ChatClient.cs:32-47 | the history is exactly the system prompt, or the default one; function invocation is on exactly when there are tools |
| Chat.ChatClient.Prompt | src/OpenBotLib/ChatClient.cs:49-56 | the prompt is appended before the model is asked with the whole history; the reply is appended and returned; after a failure the prompt stays, unanswered |
| Chat.ChatClient.PromptStructured | src/OpenBotLib/ChatClient.cs:58-65 | as `Prompt`, asking for JSON; the reply text is recorded even when it then fails to decode |
| Chat.ChatClient.StreamPrompt | src/OpenBotLib/ChatClient.cs:67-74 | only the prompt is appended; the streamed reply is never recorded |
| Chat.ChatClient.GetChatHistoryString | src/OpenBotLib/ChatClient.cs:76-87 | the rendering is `Transcript` of the history; in a valid session it is the blocks of every message after the system prompt, in order |
| Chat.ChatClient.GetChatHistory | src/OpenBotLib/ChatClient.cs:89 | the history returned starts with the system prompt and keeps the ledger's shape |
| Chat.ConversationMembers | src/OpenBotLib/ChatClient.cs:79-80 | the transcript shows exactly the messages that are not system messages |
| Chat.ConversationOfWellFormed | src/OpenBotLib/ChatClient.cs:76-87 | for a history the class can hold, the transcript shows every message after the system prompt, in order |
| Chat.ConversationSkipsSystem | src/OpenBotLib/ChatClient.cs:80 | a system message anywhere in the history is left out of the messages shown |
| Chat.SystemMessagesLeftOut | src/OpenBotLib/ChatClient.cs:78-86 | a system message anywhere in the history leaves the transcript unchanged |
| Chat.NewSessionTranscript | src/OpenBotLib/ChatClient.cs:76-87 | a new session's transcript is empty, whatever its system prompt |
| Chat.AnsweredPromptTranscript | src/OpenBotLib/ChatClient.cs:49-56 | an answered prompt adds its block and then the reply's block to the transcript |
| Chat.UnansweredPromptTranscript | src/OpenBotLib/ChatClient.cs:67-74 | a streamed or failed prompt adds only the prompt's block |
| Chat.OneExchangeTranscript | src/OpenBotLib/ChatClient.cs:76-87 | after one exchange the transcript is the prompt's block followed directly by the reply's |
| Chat.RepliesNeverOutnumberPrompts | src/OpenBotLib/ChatClient.cs:51-53 | a history never holds more replies than prompts, and holds fewer when it ends with an unanswered prompt |
| Chat.PromptKeepsWellFormed | src/OpenBotLib/ChatClient.cs:49-65 | answered and unanswered prompts keep the history's shape: system prompt first and only there, every reply right after a prompt |

## Left out

- The file system. `Directory.Exists`, `Directory.EnumerateDirectories`, `File.Exists` and `File.ReadAllText` become `LoadFromDirectory`'s `listing` parameter. It is `None` for a missing directory; otherwise it lists each subdirectory's path and name, and the text of its `SKILL.md` when there is one.
- `Path.Combine`, `Path.GetFileName` and `Path.GetDirectoryName` are not computed. The subdirectory's name and path are given, and the path is the one recorded as the skill's directory.
- SkillLoader.SkillError: the errors do not carry the file path or the message text of the exceptions. Each rule has its own error value.
- `Environment.NewLine` is the parameter `newline`. Lemmas that depend on `TrimEnd` require it to be LF or CRLF.
- Text.FoldCase: the ignore-case comparison folds only ASCII letters; the non-ASCII case mapping of .NET's ordinal ignore-case comparison is not modelled.
- `char.IsWhiteSpace` is modelled as its exact list of white-space characters, all of which lie in the Basic Multilingual Plane. `Length` counts UTF-16 code units, two for a character outside that plane (`Utf16Length`); other surrogate handling is not modelled.
- `Dictionary` enumeration order is not modelled. The parsed `metadata` is a Dafny `map`, which has no order.
- Catalog.SkillCatalog.Create: `ToDictionary`'s `ArgumentException` on a duplicate name becomes an error result rather than an exception.
- The OpenAI client, `IChatClient`, `FunctionInvokingChatClient` and `AIFunctionFactory` are foreign library calls. They are replaced by `ModelClient`, a pair of functions from the history and options to a reply or to fragments. A tool is represented by its name and description. The wrapping for function invocation is recorded as the flag `invokesFunctions`.
- `CreateOpenAI`, `DefaultOpenAIModel`, `Dispose`, cancellation tokens and `async`/`await` are left out.
- Chat.ChatClient.PromptStructured: JSON schema generation and deserialisation of `T` are the parameters `schema` and `decode`.
- Chat.ChatClient.StreamPrompt: the fragments are returned as one finished sequence. The model does not capture that the C# iterator appends the prompt only when enumeration starts. It also does not capture fragments that are handed out before a failure in mid-stream.
- Chat.ChatClient.GetChatHistory: returns the history as a value. C# returns the live list, which later prompts keep changing.
- `ChatMessage.ToString()` is modelled as the message's text, and `ChatRole.ToString()` as the role's lower-case name.
- A streamed reply is never appended to the history, even once the stream completes; the model follows the code in this.
- The name rules run in the code's order: a hyphen at either end and `--` are reported before a character outside `a-z`, `0-9` and `-`.
- The document writer (`Serialize`) exists only in the model, as the partner of the parser; the code has no writer. It writes each value quoted on one line and writes no `metadata:` block.
- SkillLoader.SerializeRoundTrip: covers records without metadata and with values that hold no LF, because the writer puts each value on one line and writes no `metadata:` block.
