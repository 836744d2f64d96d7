# Configuration reader of the VASP converter, modelled in Dafny

This project models `ConfigParameters`, the configuration reader of the VASP
converter (`python/converters/vasp/python/inpconf.py`). It covers:

- the four parameter tables of `__init__`;
- the value parsers for ion lists, logical flags and transformation matrices;
- `parse_parameter_set`, the extraction driven by one table;
- `parse_shells` and `parse_groups`, which read the `[Shell N]` and `[Group N]`
  sections into shell and group records;
- `groups_shells_consistency`, which builds the implicit group, resolves every
  group's shell references, discards redundant group parameters from shells and
  checks that every shell belongs to a group;
- `parse_input`, the three steps in order.

The modules follow the program:

| module | file | models |
|---|---|---|
| `Results` | results.dfy | the errors the reader raises, as one `Error` value each |
| `Text` | text.dfy | Python 2's `str.split()`, `str.split(sep)`, `int()` and ASCII `lower()` |
| `Sorting` | sorting.dfy | the stable `list.sort(key=...)` |
| `ValueParsers` | value_parsers.dfy | `parse_string_ion_list`, `parse_string_logical`, `parse_string_tmatrix` |
| `Schema` | schema.dfy | the tables of `__init__` and `parse_parameter_set` |
| `Sections` | sections.dfy | the document as a list of sections, and the section-name patterns |
| `Consistency` | consistency.dfy | `groups_shells_consistency` on values: what it computes |
| `Config` | config_parameters.dfy | the `ConfigParameters` object, its fields and its methods |

How the model represents the reader:

- The reader is a class. Its fields are those the source updates: `sh_sections`,
  `nshells`, `shells`, `ngroups` and `groups`. A ghost field `warnings` records
  the advisories `issue_warning` prints.
- A shell or group record is a `map<string, Value>`. An option string parsed by
  ConfigParser is a `map<string, string>` per section, and the document is the
  list of sections in file order.
- Each method is proved against a function or predicate on values:
  - `ParseShells` against `ShellsDocumentOk`, `ShellsFailure` and `ShellsRead`;
  - `ParseGroups` against `GroupsDocumentOk` and `GroupBuiltFrom`;
  - `GroupsShellsConsistency` against `Reconcile` and `ReconcileWarnings`.
- Lemmas prove what the reader promises about those. For example,
  `ReconcileModel` shows that a successful reconciliation leaves shells in
  ascending user-index order without group parameters. It also shows that the
  groups reference exactly the shells' user indices.

Abstract inputs: `float()` is the parameter `floatOk: string -> bool`, the test
whether `float` accepts a token. A real value keeps its token. Reading the file
is not modelled: the reader is built from an already parsed document.

Where the code and its design description differ, the model follows the code:

- Section names must be followed by blanks (`' +'`), not by any white space.
- The error of an incomplete implicit group does not list the missing keys.
- The coverage error does not list the orphaned shells.
- The error for a missing required parameter may name any missing keyword, not
  necessarily the first. The order of a dict's keys is unspecified.
- Python 2's `int()` accepts white space between the sign and the digits
  (`int("- 5")` is -5), so `Text.ParseInt` does too.
- ConfigParser merges repeated section headers into one section, so a parsed
  document has unique section names (`Sections.UniqueNames`, required by the
  constructor).

## Model

| member | source | states |
|---|---|---|
| Schema.TableKeys | python/converters/vasp/python/inpconf.py:54-69 | the conf-file keywords of the four tables: ions, lshell; rtransform, ctransform; shells, emin, emax; normalize, normion |
| Schema.TableNames | python/converters/vasp/python/inpconf.py:54-69 | the internal names each table stores its values under; rtransform and ctransform share tmatrix |
| Config.ShellTables | python/converters/vasp/python/inpconf.py:54-69 | the four tables read from a [Shell] section share no keyword and no internal name, and none uses user_index |
| Config.GroupTables | python/converters/vasp/python/inpconf.py:62-69 | the two group tables share no keyword or internal name, neither uses index, and shells is required |
| Consistency.GroupKeyTables | python/converters/vasp/python/inpconf.py:62-69 | the group-parameter names the consistency step moves or discards are exactly the names of the two group tables |
| ValueParsers.ParseIonList | python/converters/vasp/python/inpconf.py:81-114 | a parsed ion list is sorted ascending and holds no negative position |
| ValueParsers.IonListRange | python/converters/vasp/python/inpconf.py:91-98 | `lo..hi` followed by a non-digit: lo > hi is RangeOrder, lo = 0 is IonIndexBelowOne, otherwise exactly the hi - lo + 1 positions lo - 1, ..., hi - 1 |
| ValueParsers.IonListOfRange | python/converters/vasp/python/inpconf.py:91-114 | the same three outcomes for any string whose range prefix reads (lo, hi) |
| ValueParsers.RangePrefixOf | python/converters/vasp/python/inpconf.py:92-93 | the range pattern reads back the two bounds written in decimal before a non-digit |
| ValueParsers.IonListIndices | python/converters/vasp/python/inpconf.py:99-114 | without a range: a token that is not an integer is IonListNotImplemented; otherwise success exactly when every integer is at least 1, the error is IonIndexBelowOne, and the result plus one is a permutation of the integers |
| ValueParsers.SortedShifted | python/converters/vasp/python/inpconf.py:102-114 | the sorted integers less one are all non-negative exactly when the integers are all positive, and adding one back gives the same multiset |
| ValueParsers.ParseLogical | python/converters/vasp/python/inpconf.py:121-129 | success exactly when the first character is t, T, f or F; the value is true exactly for t or T; an empty string and any other first character are distinct errors |
| ValueParsers.TokenRows | python/converters/vasp/python/inpconf.py:141-143 | one row of tokens per line of the value, and at least one row |
| ValueParsers.ParseTMatrix | python/converters/vasp/python/inpconf.py:136-164 | success exactly when every token is a real, all rows have the first row's length and a complex matrix has an even column count; each failure has its own error; a real matrix is the token rows; a complex row has half the columns and unpairs back to the row |
| ValueParsers.UnpairPairs | python/converters/vasp/python/inpconf.py:160-162 | pairing consecutive columns loses nothing: reading the pairs back gives the row |
| Text.Words | python/converters/vasp/python/inpconf.py:102 | str.split() gives non-empty tokens without white space |
| Text.WordsUnwords | python/converters/vasp/python/inpconf.py:102 | splitting blank-joined tokens gives the tokens back |
| Text.JoinSplit | python/converters/vasp/python/inpconf.py:141 | joining the lines of split('\n') gives the string back |
| Text.SplitJoin | python/converters/vasp/python/inpconf.py:141 | splitting lines joined by '\n' gives the lines back |
| Text.ParseInts | python/converters/vasp/python/inpconf.py:63 | map(int, tokens) succeeds exactly when every token is an integer, and then gives one integer per token |
| Text.IntStringRoundTrip | python/converters/vasp/python/inpconf.py:63 | int() reads back the decimal spelling of any integer |
| Text.IntSeparatedSignRoundTrip | python/converters/vasp/python/inpconf.py:63 | int() reads back any integer written as a sign, a blank and its digits |
| Text.DecimalRoundTrip | python/converters/vasp/python/inpconf.py:226 | the digits of a natural number read back as that number |
| Sorting.SortByCorrect | python/converters/vasp/python/inpconf.py:103 | the sort gives a sorted permutation of its input |
| Sorting.SortByStable | python/converters/vasp/python/inpconf.py:332 | the sort is stable: the elements with any one key keep their order |
| Sorting.SortDistinct | python/converters/vasp/python/inpconf.py:233-239 | sorting distinct integers gives a strictly ascending permutation |
| Schema.ParseParameterSet | python/converters/vasp/python/inpconf.py:171-194 | success exactly when no required keyword is missing and every keyword the section sets converts; the result holds one converted value per internal name the section sets; an error is a missing required keyword or the failure of one conversion |
| Schema.ParsedFromUnique | python/converters/vasp/python/inpconf.py:171-194 | with distinct internal names the extraction has one possible result |
| Schema.ParsedFromUnion | python/converters/vasp/python/inpconf.py:254-279 | extractions with tables that share no keyword and no internal name combine into the extraction with the union of the tables |
| Schema.ParsedFromUnion4 | python/converters/vasp/python/inpconf.py:254-279 | the same for the four tables a [Shell] section is read with |
| Schema.ParsedEntry | python/converters/vasp/python/inpconf.py:187-192 | a keyword the section sets whose internal name no other keyword of the table shares leaves its own conversion under that name |
| Config.ShellRequiredFields | python/converters/vasp/python/inpconf.py:252-257 | a shell read from a section that passes the required-keyword check holds an ion list under ion_list and an integer under lshell |
| Config.GroupRequiredFields | python/converters/vasp/python/inpconf.py:314-319 | a group read from a section that passes the required-keyword check holds an integer list under shells and, under emin and emax, reals whose text float accepts |
| Sections.OptionsOf | python/converters/vasp/python/inpconf.py:179 | cp.get reads the options of the section with that name |
| Sections.OptionsOfUnique | python/converters/vasp/python/inpconf.py:179 | with unique section names, every section's name reads back exactly its own options |
| Sections.SectionIndex | python/converters/vasp/python/inpconf.py:224-229 | an index is read only from a name the looser section pattern accepts |
| Sections.SectionIndexSpelled | python/converters/vasp/python/inpconf.py:224-229 | the index is n exactly when the name is word in any letter case, one or more blanks, and digits only whose decimal value is n; leading zeros included, so 'shell 01' has index 1 |
| Sections.SectionIndexNone | python/converters/vasp/python/inpconf.py:224-229 | no index is read exactly when the name has no such spelling |
| Sections.SectionIndexOfName | python/converters/vasp/python/inpconf.py:224-229 | a name spelled word, one or more blanks and the decimal digits of n, in any letter case, carries the index n |
| Sections.SectionNames | python/converters/vasp/python/inpconf.py:208-211 | every name kept matches the looser section pattern |
| Sections.MatchesFrom | python/converters/vasp/python/inpconf.py:208-211 | the positions from i on whose names match the looser pattern: all of them, each once, ascending |
| Sections.SectionNamesInOrder | python/converters/vasp/python/inpconf.py:208-211 | the names kept are exactly the names of all matching sections, in file order |
| Sections.SectionIndices | python/converters/vasp/python/inpconf.py:225-229 | the indices are read exactly when every name carries one, and then one index per name, in order |
| Sections.ZipToMap | python/converters/vasp/python/inpconf.py:231 | the dict's keys are the indices, and with distinct indices each maps to its own section |
| Config.ConfigParameters.ParseShellSection | python/converters/vasp/python/inpconf.py:246-280 | one [Shell] section reads exactly when its four tables accept it; the record carries the user index and the extraction with all four tables; an error is an error of the first table, in the order shell required, shell optional, group required, group optional, that does not accept the section |
| Config.ConfigParameters.ParseShellList | python/converters/vasp/python/inpconf.py:246-280 | the shells read exactly when every section the indices name reads; one record per index, in the given order; an error is the error of the first section, in that order, that does not read, after sections that all read |
| Config.ConfigParameters.ReadShells | python/converters/vasp/python/inpconf.py:202-282 | success exactly when there is a [Shell] section, every one carries a readable index, no index repeats and every section reads; the errors in the order the source checks them: no section, an unreadable index, a repeated index, then the first section in ascending index order that does not read; on success the ascending indices and one shell per index read from its section |
| Config.ShellsSectionFails | python/converters/vasp/python/inpconf.py:233-280 | when the first section in ascending index order that does not read fails with e, parse_shells rejects the document with e |
| Config.ShellsAllRead | python/converters/vasp/python/inpconf.py:233-282 | when every section reads, the shells are those of the sorted indices, in strictly ascending user-index order |
| Config.ConfigParameters.ParseShells | python/converters/vasp/python/inpconf.py:202-282 | ReadShells' outcome stored in sh_sections, nshells and shells, with the advisory when the indices are not 1, ..., n |
| Config.ConfigParameters.ParseGroupSection | python/converters/vasp/python/inpconf.py:303-328 | one [Group] section reads exactly when it carries an index and its tables accept it; the record holds its index, the extraction with both group tables and a shell list; an error is, in this order, the unreadable index, an error of the required table, an error of the optional table |
| Config.ConfigParameters.ReadGroups | python/converters/vasp/python/inpconf.py:293-328 | success exactly when every [Group] section reads; an error is the error of the first section, in file order, that does not read; one group per section in file order |
| Config.ConfigParameters.ParseGroups | python/converters/vasp/python/inpconf.py:289-332 | ReadGroups' outcome stored in ngroups and groups, the groups stably sorted by index; the shells, sh_sections and advisories are left as they are |
| Config.SortedGroupsReady | python/converters/vasp/python/inpconf.py:331-332 | sorting keeps every group's shell list |
| Consistency.ResolveAsWritten | python/converters/vasp/python/inpconf.py:383-396 | line 394 as written: no reference resolves; the error is the missing-shell error exactly when no shell has the user index |
| Consistency.ResolveAsWrittenUnpacks | python/converters/vasp/python/inpconf.py:383-396 | a reference to a shell read from a [Shell] section, which has at least three keys, fails to unpack as written, while the lookup finds its position |
| Consistency.FindShellByUserIndex | python/converters/vasp/python/inpconf.py:383-387 | the position of the first shell with the user index, or none when no shell has it |
| Consistency.FirstPositionReady | python/converters/vasp/python/inpconf.py:383-387 | among shells in strictly ascending user-index order, a user index lands on position i exactly when shell i has it |
| Consistency.MoveFields | python/converters/vasp/python/inpconf.py:357-375 | moving keys from the shell to the group: fails exactly when a required key is absent; otherwise the shell without the keys and the group with them |
| Consistency.SplitGroupKeys | python/converters/vasp/python/inpconf.py:357-375 | the implicit group's split of the lone shell: fails exactly when a required group parameter is absent; otherwise the shell without group parameters and every group parameter it held |
| Consistency.Defaulted | python/converters/vasp/python/inpconf.py:349-377 | a defaulted state keeps shells in ascending user-index order and every group's shell list, and keeps every shell's user index |
| Config.ConfigParameters.MakeImplicitGroup | python/converters/vasp/python/inpconf.py:349-377 | without groups: exactly one shell, with every required group parameter, becomes the shell without group parameters and a group holding them that references the shell; AmbiguousGrouping and IncompleteImplicitGroup otherwise |
| Consistency.DefaultedAsWritten | python/converters/vasp/python/inpconf.py:369-377 | the special case as the source is written: every document without [Group] sections that passes the earlier checks fails with UnboundLocalError |
| Consistency.DefaultedAsWrittenRejects | python/converters/vasp/python/inpconf.py:349-377 | a lone shell with every required group parameter is rejected as written but turned into a group of its own, referencing it, by the intended code |
| Consistency.DiscardKeys | python/converters/vasp/python/inpconf.py:402-421 | every group parameter is removed from the shell, with one advisory per parameter it held |
| Config.ConfigParameters.DiscardGroupParameters | python/converters/vasp/python/inpconf.py:402-421 | only the shell at the position changes: it loses its group parameters, and the advisories are appended |
| Config.ConfigParameters.ResolveReference | python/converters/vasp/python/inpconf.py:392-421 | the reference is looked up as in the original shells; when found, its position is recorded and the shells and advisories advance by one reference |
| Config.ConfigParameters.ResolveGroup | python/converters/vasp/python/inpconf.py:390-421 | all references of one group resolve, advancing the state by the group's list; otherwise the failure is the first unresolved reference of all groups |
| Config.ConfigParameters.ResolveGroups | python/converters/vasp/python/inpconf.py:389-421 | one position per reference of every group, state and advisories after all references; otherwise the first unresolved reference |
| Config.ConfigParameters.GroupsShellsConsistency | python/converters/vasp/python/inpconf.py:339-427 | succeeds exactly when Reconcile does, leaving Reconcile's shells and groups and ReconcileWarnings; fails with Reconcile's error |
| Consistency.FirstUnresolved | python/converters/vasp/python/inpconf.py:390-396 | no reference is unresolved exactly when every reference names a shell |
| Consistency.FirstUnresolvedAt | python/converters/vasp/python/inpconf.py:390-396 | the first reference that names no shell, after references that all resolve, is the one reported |
| Consistency.StrippedAfterAt | python/converters/vasp/python/inpconf.py:402-421 | after the visited references, a shell has lost its group parameters exactly when it is referenced |
| Consistency.StrippedAfterAll | python/converters/vasp/python/inpconf.py:402-427 | once every shell is referenced, every shell has lost its group parameters |
| Consistency.ProgressStep | python/converters/vasp/python/inpconf.py:392-421 | visiting one more reference strips the shell it lands on and appends that shell's advisories |
| Consistency.ProgressStuck | python/converters/vasp/python/inpconf.py:393-396 | when the next reference names no shell, it is the first unresolved one |
| Consistency.ProgressDone | python/converters/vasp/python/inpconf.py:389-427 | after every reference: all resolve, the positions cover the shells exactly when every shell is referenced, and then every shell is stripped |
| Consistency.CoverageCheck | python/converters/vasp/python/inpconf.py:423-427 | sorted set(sh_inds) equals range(nshells) exactly when every shell's user index is referenced |
| Consistency.ReconcileStuck | python/converters/vasp/python/inpconf.py:390-396 | after defaulting, an unresolved reference decides the failure |
| Consistency.ReconcileResolved | python/converters/vasp/python/inpconf.py:389-427 | after every reference, the coverage decides the outcome; success is the stripped shells with the groups unchanged |
| Consistency.ReconcileModel | python/converters/vasp/python/inpconf.py:339-427 | a successful reconciliation gives shells in ascending user-index order without group parameters, every group with a shell list, referenced user indices equal to the shells' user indices, and every other shell field kept |
| Consistency.Coverage | python/converters/vasp/python/inpconf.py:423-427 | when every reference resolves and every shell is referenced, the referenced user indices are exactly the shells' user indices |
| Consistency.StripIdempotent | python/converters/vasp/python/inpconf.py:402-421 | discarding group parameters twice is discarding them once |
| Config.ConfigParameters.ReadSections | python/converters/vasp/python/inpconf.py:437-443 | the outcome of parse_shells then parse_groups: a shells error when parse_shells rejects the document, otherwise a groups error when parse_groups does, otherwise success with the shells read and the groups read and sorted |
| Config.ConfigParameters.ParseInput | python/converters/vasp/python/inpconf.py:437-444 | a document parse_shells rejects fails with its shells error; one parse_groups rejects fails with its groups error; one both accept passes exactly when Reconcile, on the shells read and the groups read and sorted, succeeds, and then leaves Reconcile's shells and groups and the advisories of both steps; otherwise it fails with Reconcile's error; on success the result is the validated model with one shell per [Shell] section |

## Left out

- Reading the file (`open`, `ConfigParser.readfp`): the reader starts from a parsed document. ConfigParser's own rules (lower-cased option names, continuation lines) are not modelled.
- `float()`: the parameter `floatOk` stands for it, and a real keeps its token. A complex matrix keeps token pairs, not complex numbers.
- Printing, the verbosity flag and the text of `issue_warning`: advisories are values in the ghost field `warnings`.
- Lines 447-464 of `parse_input` and the `__main__` block: they use names that are not defined in that scope and are not part of the reader.
- The element-name form of an ion list, which needs the POSCAR data of `vaspio.py`. As in the source, such a list is reported as not implemented. `vaspio.py` is not part of this model.
- The order of a dict's keys: `Schema.ParseParameterSet` visits keywords in an unspecified order (`:|`), so its contract allows any of the possible errors and either matrix when both rtransform and ctransform are set. The consistency step visits group parameters in one fixed order. Only the order of advisories depends on it.
- The state after an error: the source raises an exception and the object is not used again, so the methods promise nothing about their fields after a `Fail`.
- The `$` of the section-name patterns is taken as the end of the name, since a section name cannot hold a newline.
- Config.ConfigParameters.DiscardGroupParameters: the source's two loops (required, then optional keys) are one loop over the fixed key order, with the same advisories.
- Consistency.DiscardKeys: returns its advisories, which the caller appends, instead of issuing them one by one.
- Config.ConfigParameters.ResolveReference: the source unpacks `ind, shell` from `find_shell_by_user_index` at line 394, which returns only the shell. The model returns the position as evidently intended; `Consistency.ResolveAsWritten` models the line as written (see Findings).
- Line 396 lacks a closing parenthesis, so the file as written does not compile. The model reads it as the evidently intended `raise Exception(...)`.

## Findings

| source | as written | input that shows it | evidently intended | confidence | as-written member | corrected member |
|---|---|---|---|---|---|---|
| python/converters/vasp/python/inpconf.py:372-377 | the lone shell's optional group parameters are popped from `self.shells[ind]`, but `ind` is a local bound only at line 394, so UnboundLocalError, which `except KeyError` does not catch; line 377 then calls `update` on the list `self.groups` | one [Shell] section with shells, emin and emax set and no [Group] section | pop from `self.shells[0]`, and give the new group the shell list `[user_index]` | high; not executed | Consistency.DefaultedAsWritten | Consistency.Defaulted |
| python/converters/vasp/python/inpconf.py:383-396 | `find_shell_by_user_index` returns the shell dict, and `ind, shell = ...` unpacks its keys: a shell has at least the keys user_index, ion_list and lshell, so ValueError, which `except KeyError` does not catch (with exactly two keys, `shell.pop` would raise AttributeError) | one [Shell 1] section with ions and lshell set and one [Group 1] section with shells = 1, emin and emax set | return `ind, shell` from the lookup, so the position is recorded and the shell loses its group parameters | high; not executed | Consistency.ResolveAsWritten | Config.ConfigParameters.ResolveReference |
