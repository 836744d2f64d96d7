/** The reader object of inpconf.py: ConfigParameters with its parsed document, its shell
    and group lists, and the three steps of parse_input. */
module Config {
  import opened Results
  import opened Text
  import opened Sorting
  import opened ValueParsers
  import opened Schema
  import opened Sections
  import opened Consistency

  // ---------------------------------------------------------------------------
  // What a [Shell] section yields
  // ---------------------------------------------------------------------------

  /** All four tables a [Shell] section is read with (inpconf.py:247-278). */
  function ShellSchema(): Schema {
    ShRequired + ShOptional + GrRequired + GrOptional
  }

  /** The shell tables share no keyword and no internal name. */
  lemma ShellTables()
    ensures ShRequired.Keys !! ShOptional.Keys
    ensures (ShRequired + ShOptional).Keys !! GrRequired.Keys
    ensures (ShRequired + ShOptional + GrRequired).Keys !! GrOptional.Keys
    ensures Names(ShRequired) !! Names(ShOptional)
    ensures Names(ShRequired + ShOptional) !! Names(GrRequired)
    ensures Names(ShRequired + ShOptional + GrRequired) !! Names(GrOptional)
    ensures "user_index" !in Names(ShRequired) && "user_index" !in Names(ShOptional)
    ensures "user_index" !in Names(GrRequired) && "user_index" !in Names(GrOptional)
  {
    ShellTableKeys();
    ShellTableNames();
    TableNames();
    NamesDisjoint();
  }

  lemma NamesDisjoint()
    ensures {"ion_list", "lshell"} !! {"tmatrix"}
    ensures {"ion_list", "lshell", "tmatrix"} !! {"shells", "emin", "emax"}
    ensures {"ion_list", "lshell", "tmatrix", "shells", "emin", "emax"} !! {"normalize", "normion"}
    ensures "user_index" !in {"ion_list", "lshell", "tmatrix", "shells", "emin", "emax", "normalize", "normion"}
  {
  }

  lemma ShellTableKeys()
    ensures ShRequired.Keys !! ShOptional.Keys
    ensures (ShRequired + ShOptional).Keys !! GrRequired.Keys
    ensures (ShRequired + ShOptional + GrRequired).Keys !! GrOptional.Keys
  {
    TableKeys();
  }

  lemma ShellTableNames()
    ensures Names(ShRequired + ShOptional) == {"ion_list", "lshell", "tmatrix"}
    ensures Names(ShRequired + ShOptional + GrRequired) == {"ion_list", "lshell", "tmatrix", "shells", "emin", "emax"}
    ensures Names(ShellSchema()) == {"ion_list", "lshell", "tmatrix", "shells", "emin", "emax", "normalize", "normion"}
  {
    TableNames();
    ShellTableKeys();
    NamesUnion(ShRequired, ShOptional);
    NamesUnion(ShRequired + ShOptional, GrRequired);
    NamesUnion(ShRequired + ShOptional + GrRequired, GrOptional);
  }

  /** Every table read from a [Shell] section accepts it: the shell keywords ions and
      lshell are present, and every keyword of the four tables the section sets converts. */
  predicate ShellParametersOk(options: Options, floatOk: string -> bool) {
    && Succeeds(options, ShRequired, true, floatOk)
    && Succeeds(options, ShOptional, false, floatOk)
    && Succeeds(options, GrRequired, false, floatOk)
    && Succeeds(options, GrOptional, false, floatOk)
  }

  /** The errors one [Shell] section can produce: those of the first of the four tables,
      in the order they are read, that does not accept the section. */
  predicate ShellError(options: Options, section: string, floatOk: string -> bool, e: Error) {
    if !Succeeds(options, ShRequired, true, floatOk) then PossibleError(options, section, ShRequired, true, floatOk, e)
    else if !Succeeds(options, ShOptional, false, floatOk) then PossibleError(options, section, ShOptional, false, floatOk, e)
    else if !Succeeds(options, GrRequired, false, floatOk) then PossibleError(options, section, GrRequired, false, floatOk, e)
    else PossibleError(options, section, GrOptional, false, floatOk, e)
  }

  /** A section with an error does not read. */
  lemma ShellErrorFails(options: Options, section: string, floatOk: string -> bool, e: Error)
    requires ShellError(options, section, floatOk, e)
    ensures !ShellParametersOk(options, floatOk)
  {
  }

  /** Among the sections that inds names through sections, in that order, the k-th is the
      first that does not read, and e is its error. */
  predicate FailsFirstAt(doc: Document, floatOk: string -> bool, inds: seq<int>, sections: map<int, string>,
                         k: nat, e: Error) {
    && k < |inds|
    && (forall j | 0 <= j < k :: inds[j] in sections && ShellParametersOk(OptionsOf(doc, sections[inds[j]]), floatOk))
    && inds[k] in sections && ShellError(OptionsOf(doc, sections[inds[k]]), sections[inds[k]], floatOk, e)
  }

  /** shell is the record read from a [Shell] section with user index u: its user index,
      and the extraction of the section with all four tables. */
  predicate ShellBuiltFrom(options: Options, floatOk: string -> bool, u: int, shell: Record) {
    && HasUserIndex(shell) && UserIndex(shell) == u
    && ParsedFrom(options, ShellSchema(), floatOk, shell - {"user_index"})
  }

  /** shell = {'user_index': ind}, updated with the four extractions in turn. */
  lemma BuildShell(options: Options, floatOk: string -> bool, ind: int,
                   p1: Record, p2: Record, p3: Record, p4: Record)
    requires ParsedFrom(options, ShRequired, floatOk, p1)
    requires ParsedFrom(options, ShOptional, floatOk, p2)
    requires ParsedFrom(options, GrRequired, floatOk, p3)
    requires ParsedFrom(options, GrOptional, floatOk, p4)
    ensures ShellBuiltFrom(options, floatOk, ind, map["user_index" := Int(ind)] + p1 + p2 + p3 + p4)
  {
    ShellTables();
    ParsedTagged4(options, ShRequired, ShOptional, GrRequired, GrOptional, floatOk,
                  "user_index", Int(ind), p1, p2, p3, p4);
  }

  /** A shell read from a section that sets ions and lshell holds its ion list and its
      angular momentum l. */
  lemma ShellRequiredFields(options: Options, floatOk: string -> bool, u: int, shell: Record)
    requires Succeeds(options, ShRequired, true, floatOk)
    requires ShellBuiltFrom(options, floatOk, u, shell)
    ensures "ion_list" in shell && shell["ion_list"].IonList?
    ensures "lshell" in shell && shell["lshell"].Int?
  {
    assert "ions" in ShRequired && "lshell" in ShRequired;
    ShellRequiredEntry(options, floatOk, u, shell, "ions");
    ShellRequiredEntry(options, floatOk, u, shell, "lshell");
  }

  /** A required shell keyword the section sets leaves its conversion in the shell. */
  lemma ShellRequiredEntry(options: Options, floatOk: string -> bool, u: int, shell: Record, key: string)
    requires key in ShRequired && key in options
    requires ShellBuiltFrom(options, floatOk, u, shell)
    ensures ShRequired[key].0 in shell
    ensures Convert(ShRequired[key].1, options[key], floatOk) == Ok(shell[ShRequired[key].0])
  {
    ShellSoleKey(key);
    ParsedEntry(options, ShellSchema(), floatOk, shell - {"user_index"}, key);
  }

  /** A required shell keyword is the only one of the four tables with its internal name. */
  lemma ShellSoleKey(key: string)
    requires key in ShRequired
    ensures key in ShellSchema() && ShellSchema()[key] == ShRequired[key]
    ensures forall p | p in ShellSchema() && p != key :: ShellSchema()[p].0 != ShellSchema()[key].0
  {
    ShellTables();
    assert ShRequired["ions"].0 != ShRequired["lshell"].0;
    SoleName(ShRequired, ShOptional, GrRequired, GrOptional, key);
  }

  /** The [Shell] sections of the document, in file order. */
  function ShellSectionNames(doc: Document): seq<string> {
    SectionNames(doc, "shell")
  }

  /** parse_shells succeeds on the document: there is a [Shell] section, every one
      carries a readable index, no index repeats, and every section's parameters read. */
  predicate ShellsDocumentOk(doc: Document, floatOk: string -> bool) {
    var names := ShellSectionNames(doc);
    && |names| > 0
    && SectionIndices(names, "shell").Some?
    && Distinct(SectionIndices(names, "shell").value)
    && forall i | 0 <= i < |names| :: ShellParametersOk(OptionsOf(doc, names[i]), floatOk)
  }

  /** The errors parse_shells can report, in the order it checks for them: no [Shell]
      section, a section without a readable index, two sections with the same index, and
      then the error of the first section, in ascending index order, that does not read. */
  predicate ShellsFailure(doc: Document, floatOk: string -> bool, e: Error) {
    var names := ShellSectionNames(doc);
    if |names| == 0 then e == NoShells
    else match SectionIndices(names, "shell")
      case None => e == ShellIndexUnreadable(names)
      case Some(inds) =>
        if !Distinct(inds) then e == DuplicateShellIndex
        else
          var sorted := SortedShellIndices(doc);
          exists k | 0 <= k < |sorted| :: FailsFirstAt(doc, floatOk, sorted, ZipToMap(inds, names), k, e)
  }

  /** The advisory of parse_shells: indices that are not exactly 1, 2, ..., n. */
  function IndexWarnings(sorted: seq<int>): seq<Warning> {
    if sorted != Range(1, |sorted| + 1) then [NonContiguousShellIndices] else []
  }

  // ---------------------------------------------------------------------------
  // What a [Group] section yields
  // ---------------------------------------------------------------------------

  /** The sort key of parse_groups: a group's 'index'. */
  function IndexKey(group: Record): int {
    match GroupIndex(group)
    case Some(i) => i
    case None => 0
  }

  predicate GroupParametersOk(options: Options, floatOk: string -> bool) {
    Succeeds(options, GrRequired, true, floatOk) && Succeeds(options, GrOptional, false, floatOk)
  }

  /** The [Group] sections of the document, in file order. */
  function GroupSectionNames(doc: Document): seq<string> {
    SectionNames(doc, "group")
  }

  /** parse_groups succeeds on the document: every [Group] section carries a readable index
      and its parameters read. A document without [Group] sections is accepted. */
  predicate GroupsDocumentOk(doc: Document, floatOk: string -> bool) {
    var names := GroupSectionNames(doc);
    forall i | 0 <= i < |names| ::
      SectionIndex(names[i], "group").Some? && GroupParametersOk(OptionsOf(doc, names[i]), floatOk)
  }

  /** group is what parse_groups reads from the [Group] section called name. */
  predicate GroupRead(doc: Document, floatOk: string -> bool, name: string, group: Record) {
    && SectionIndex(name, "group").Some?
    && GroupParametersOk(OptionsOf(doc, name), floatOk)
    && GroupBuiltFrom(OptionsOf(doc, name), floatOk, SectionIndex(name, "group").value, group)
    && "shells" in group && group["shells"].IntList?
  }

  /** Every [Group] section read: the document is accepted by parse_groups. */
  lemma GroupsReadAll(doc: Document, floatOk: string -> bool, built: seq<Record>)
    requires |built| == |GroupSectionNames(doc)|
    requires forall i | 0 <= i < |built| :: GroupRead(doc, floatOk, GroupSectionNames(doc)[i], built[i])
    ensures GroupsDocumentOk(doc, floatOk)
  {
  }

  /** Every [Group] section read: each record is built from its section and holds a shell list. */
  lemma GroupsReadBuilt(doc: Document, floatOk: string -> bool, built: seq<Record>)
    requires |built| == |GroupSectionNames(doc)|
    requires forall i | 0 <= i < |built| :: GroupRead(doc, floatOk, GroupSectionNames(doc)[i], built[i])
    ensures forall i | 0 <= i < |built| ::
      && SectionIndex(GroupSectionNames(doc)[i], "group").Some?
      && GroupBuiltFrom(OptionsOf(doc, GroupSectionNames(doc)[i]), floatOk,
                        SectionIndex(GroupSectionNames(doc)[i], "group").value, built[i])
    ensures GroupsReady(built)
  {
  }

  /** built holds one record per [Group] section, in file order, each read from its section. */
  predicate GroupsBuilt(doc: Document, floatOk: string -> bool, built: seq<Record>) {
    var names := GroupSectionNames(doc);
    && |built| == |names|
    && forall i | 0 <= i < |names| ::
         && SectionIndex(names[i], "group").Some?
         && GroupBuiltFrom(OptionsOf(doc, names[i]), floatOk, SectionIndex(names[i], "group").value, built[i])
  }

  /** The [Group] section called name reads: it carries an index and its tables accept it. */
  predicate GroupSectionOk(doc: Document, floatOk: string -> bool, name: string) {
    SectionIndex(name, "group").Some? && GroupParametersOk(OptionsOf(doc, name), floatOk)
  }

  /** The errors parse_groups can report: the error of the first [Group] section, in file
      order, that does not read. */
  predicate GroupsFailure(doc: Document, floatOk: string -> bool, e: Error) {
    var names := GroupSectionNames(doc);
    exists i | 0 <= i < |names| ::
      && (forall j | 0 <= j < i :: GroupSectionOk(doc, floatOk, names[j]))
      && GroupError(OptionsOf(doc, names[i]), names[i], floatOk, e)
  }

  /** The errors one [Group] section can produce, in the order they are checked: an
      unreadable index, then the required table, then the optional one. */
  predicate GroupError(options: Options, section: string, floatOk: string -> bool, e: Error) {
    if SectionIndex(section, "group").None? then e == GroupIndexUnreadable(section)
    else if !Succeeds(options, GrRequired, true, floatOk) then PossibleError(options, section, GrRequired, true, floatOk, e)
    else PossibleError(options, section, GrOptional, false, floatOk, e)
  }

  /** group is the record read from a [Group] section with index n. */
  predicate GroupBuiltFrom(options: Options, floatOk: string -> bool, n: int, group: Record) {
    && "index" in group && group["index"] == Int(n)
    && ParsedFrom(options, GrRequired + GrOptional, floatOk, group - {"index"})
  }

  lemma BuildGroup(options: Options, floatOk: string -> bool, n: int, p1: Record, p2: Record)
    requires ParsedFrom(options, GrRequired, floatOk, p1)
    requires ParsedFrom(options, GrOptional, floatOk, p2)
    requires Succeeds(options, GrRequired, true, floatOk)
    ensures GroupBuiltFrom(options, floatOk, n, map["index" := Int(n)] + p1 + p2)
    ensures var g := map["index" := Int(n)] + p1 + p2; "shells" in g && g["shells"].IntList?
  {
    GroupTables();
    ParsedTagged(options, GrRequired, GrOptional, floatOk, "index", Int(n), p1, p2);
    GroupShellList(options, floatOk, p1);
    PresentNamesWithin(options, GrOptional);
  }

  /** The group tables share no keyword and no internal name, and neither names 'index'. */
  lemma GroupTables()
    ensures GrRequired.Keys !! GrOptional.Keys && Names(GrRequired) !! Names(GrOptional)
    ensures "index" !in Names(GrRequired) && "index" !in Names(GrOptional)
    ensures "shells" !in Names(GrOptional)
  {
    TableNames();
  }

  /** A successful extraction with the required group table holds the shell list. */
  lemma GroupShellList(options: Options, floatOk: string -> bool, p1: Record)
    requires ParsedFrom(options, GrRequired, floatOk, p1)
    requires Succeeds(options, GrRequired, true, floatOk)
    ensures "shells" in p1 && p1["shells"].IntList?
  {
    assert GrRequired.Keys == {"shells", "emin", "emax"};
    ParsedEntry(options, GrRequired, floatOk, p1, "shells");
  }

  /** A group read from a section holds its shell list and its two energy bounds, reals
      that float accepts. */
  lemma GroupRequiredFields(options: Options, floatOk: string -> bool, n: int, group: Record)
    requires Succeeds(options, GrRequired, true, floatOk)
    requires GroupBuiltFrom(options, floatOk, n, group)
    ensures "shells" in group && group["shells"].IntList?
    ensures forall k | k in ["emin", "emax"] :: k in group && group[k].Real? && floatOk(group[k].token)
  {
    var m := group - {"index"};
    GroupSoleKey("shells");
    ParsedEntry(options, GrRequired + GrOptional, floatOk, m, "shells");
    GroupSoleKey("emin");
    ParsedEntry(options, GrRequired + GrOptional, floatOk, m, "emin");
    GroupSoleKey("emax");
    ParsedEntry(options, GrRequired + GrOptional, floatOk, m, "emax");
  }

  /** A required group keyword is the only one of the two tables with its internal name. */
  lemma GroupSoleKey(key: string)
    requires key in GrRequired
    ensures key in GrRequired + GrOptional && (GrRequired + GrOptional)[key] == GrRequired[key]
    ensures forall p | p in GrRequired + GrOptional && p != key ::
              (GrRequired + GrOptional)[p].0 != GrRequired[key].0
  {
    GroupTables();
    assert GrRequired["shells"].0 == "shells" && GrRequired["emin"].0 == "emin" && GrRequired["emax"].0 == "emax";
    SoleName2(GrRequired, GrOptional, key);
  }

  lemma SortedGroupsReady(built: seq<Record>)
    requires GroupsReady(built)
    ensures GroupsReady(SortBy(built, IndexKey))
  {
    var sorted: seq<Record> := SortBy(built, IndexKey);
    SortByCorrect(built, IndexKey);
    forall i | 0 <= i < |sorted| ensures "shells" in sorted[i] && sorted[i]["shells"].IntList? {
      assert sorted[i] in multiset(built);
      var j :| 0 <= j < |built| && built[j] == sorted[i];
    }
  }

  /** Every sorted index names a section. */
  lemma SortedSections(inds: seq<nat>, secs: seq<string>, sorted: seq<int>, sections: map<int, string>)
    requires |inds| == |secs| && sections == ZipToMap(inds, secs)
    requires multiset(sorted) == multiset(inds)
    ensures forall k | 0 <= k < |sorted| :: sorted[k] in sections
  {
    forall k | 0 <= k < |sorted| ensures sorted[k] in sections {
      assert sorted[k] in multiset(inds);
      var i :| 0 <= i < |inds| && inds[i] == sorted[k];
    }
  }

  /** What holds of the section of every sorted index holds of every section. */
  lemma SortedAll(inds: seq<nat>, secs: seq<string>, sorted: seq<int>, sections: map<int, string>,
                  ok: string -> bool)
    requires |inds| == |secs| && Distinct(inds) && sections == ZipToMap(inds, secs)
    requires multiset(sorted) == multiset(inds)
    requires forall k | 0 <= k < |sorted| :: sorted[k] in sections && ok(sections[sorted[k]])
    ensures forall i | 0 <= i < |secs| :: ok(secs[i])
  {
    forall i | 0 <= i < |secs| ensures ok(secs[i]) {
      assert inds[i] in multiset(sorted);
      var k :| 0 <= k < |sorted| && sorted[k] == inds[i];
      assert sections[inds[i]] == secs[i];
    }
  }

  /** What holds of the section of one sorted index holds of some section. */
  lemma SortedSome(inds: seq<nat>, secs: seq<string>, sorted: seq<int>, sections: map<int, string>,
                   ok: string -> bool, k: nat)
    requires |inds| == |secs| && Distinct(inds) && sections == ZipToMap(inds, secs)
    requires multiset(sorted) == multiset(inds)
    requires k < |sorted| && sorted[k] in sections && ok(sections[sorted[k]])
    ensures exists i | 0 <= i < |secs| :: ok(secs[i])
  {
    assert sorted[k] in multiset(inds);
    var i :| 0 <= i < |inds| && inds[i] == sorted[k];
    assert sections[inds[i]] == secs[i];
  }

  /** The indices of the [Shell] sections in ascending order. */
  function SortedShellIndices(doc: Document): seq<int> {
    match SectionIndices(ShellSectionNames(doc), "shell")
    case None => []
    case Some(inds) => SortBy<int>(inds, Identity)
  }

  /** What a successful parse_shells leaves: sections maps each index to its section,
      and shell i, with user index the i-th smallest index, is read from that section. */
  predicate ShellsRead(doc: Document, floatOk: string -> bool, sections: map<int, string>, shells: seq<Record>) {
    var names := ShellSectionNames(doc);
    var sorted := SortedShellIndices(doc);
    && SectionIndices(names, "shell").Some?
    && sections == ZipToMap(SectionIndices(names, "shell").value, names)
    && |shells| == |names| == |sorted|
    && ShellsReady(shells)
    && forall i | 0 <= i < |shells| ::
         && UserIndex(shells[i]) == sorted[i]
         && sorted[i] in sections
         && ShellBuiltFrom(OptionsOf(doc, sections[sorted[i]]), floatOk, sorted[i], shells[i])
  }

  lemma ShellsReadIntro(doc: Document, floatOk: string -> bool, inds: seq<nat>, sorted: seq<int>,
                        sections: map<int, string>, shells: seq<Record>)
    requires SectionIndices(ShellSectionNames(doc), "shell") == Some(inds) && Distinct(inds)
    requires sorted == SortBy<int>(inds, Identity)
    requires sections == ZipToMap(inds, ShellSectionNames(doc))
    requires |shells| == |sorted|
    requires forall i | 0 <= i < |sorted| :: sorted[i] in sections
    requires forall i | 0 <= i < |sorted| ::
      ShellBuiltFrom(OptionsOf(doc, sections[sorted[i]]), floatOk, sorted[i], shells[i])
    ensures ShellsRead(doc, floatOk, sections, shells)
  {
    SortDistinct(inds);
    SortByCorrect<int>(inds, Identity);
    forall i | 0 <= i < |sorted| ensures HasUserIndex(shells[i]) && UserIndex(shells[i]) == sorted[i] {
      assert ShellBuiltFrom(OptionsOf(doc, sections[sorted[i]]), floatOk, sorted[i], shells[i]);
    }
    SortedShellsReady(sorted, shells);
    var names := ShellSectionNames(doc);
    assert SortedShellIndices(doc) == sorted;
    assert |inds| == |names| && |sorted| == |inds|;
    assert forall i | 0 <= i < |shells| ::
      && UserIndex(shells[i]) == sorted[i]
      && sorted[i] in sections
      && ShellBuiltFrom(OptionsOf(doc, sections[sorted[i]]), floatOk, sorted[i], shells[i]);
  }

  // The outcomes of parse_shells, one lemma per way it can end.

  lemma ShellsNoSection(doc: Document, floatOk: string -> bool)
    requires |ShellSectionNames(doc)| == 0
    ensures !ShellsDocumentOk(doc, floatOk) && ShellsFailure(doc, floatOk, NoShells)
  {
  }

  lemma ShellsIndexUnreadable(doc: Document, floatOk: string -> bool)
    requires |ShellSectionNames(doc)| > 0 && SectionIndices(ShellSectionNames(doc), "shell").None?
    ensures !ShellsDocumentOk(doc, floatOk)
    ensures ShellsFailure(doc, floatOk, ShellIndexUnreadable(ShellSectionNames(doc)))
  {
  }

  lemma ShellsDuplicateIndex(doc: Document, floatOk: string -> bool, inds: seq<nat>)
    requires |ShellSectionNames(doc)| > 0 && SectionIndices(ShellSectionNames(doc), "shell") == Some(inds)
    requires !Distinct(inds)
    ensures !ShellsDocumentOk(doc, floatOk) && ShellsFailure(doc, floatOk, DuplicateShellIndex)
  {
  }

  lemma ShellsSectionFails(doc: Document, floatOk: string -> bool, inds: seq<nat>, sorted: seq<int>,
                           sections: map<int, string>, e: Error)
    requires |ShellSectionNames(doc)| > 0 && SectionIndices(ShellSectionNames(doc), "shell") == Some(inds)
    requires Distinct(inds) && sections == ZipToMap(inds, ShellSectionNames(doc))
    requires sorted == SortBy<int>(inds, Identity)
    requires exists k | 0 <= k < |sorted| :: FailsFirstAt(doc, floatOk, sorted, sections, k, e)
    ensures !ShellsDocumentOk(doc, floatOk) && ShellsFailure(doc, floatOk, e)
  {
    var names := ShellSectionNames(doc);
    var k :| 0 <= k < |sorted| && FailsFirstAt(doc, floatOk, sorted, sections, k, e);
    ShellErrorFails(OptionsOf(doc, sections[sorted[k]]), sections[sorted[k]], floatOk, e);
    SortByCorrect<int>(inds, Identity);
    SortedSome(inds, names, sorted, sections, s => !ShellParametersOk(OptionsOf(doc, s), floatOk), k);
    ShellsFailureAt(doc, floatOk, inds, k, e);
  }

  lemma ShellsFailureAt(doc: Document, floatOk: string -> bool, inds: seq<nat>, k: nat, e: Error)
    requires |ShellSectionNames(doc)| > 0 && SectionIndices(ShellSectionNames(doc), "shell") == Some(inds)
    requires Distinct(inds)
    requires FailsFirstAt(doc, floatOk, SortBy<int>(inds, Identity), ZipToMap(inds, ShellSectionNames(doc)), k, e)
    ensures ShellsFailure(doc, floatOk, e)
  {
    assert SortedShellIndices(doc) == SortBy<int>(inds, Identity);
  }

  lemma ShellsAllRead(doc: Document, floatOk: string -> bool, inds: seq<nat>, sorted: seq<int>,
                      sections: map<int, string>, shells: seq<Record>)
    requires |ShellSectionNames(doc)| > 0 && SectionIndices(ShellSectionNames(doc), "shell") == Some(inds)
    requires Distinct(inds) && sections == ZipToMap(inds, ShellSectionNames(doc))
    requires sorted == SortBy<int>(inds, Identity)
    requires forall k | 0 <= k < |sorted| :: sorted[k] in sections
    requires forall k | 0 <= k < |sorted| :: ShellParametersOk(OptionsOf(doc, sections[sorted[k]]), floatOk)
    requires |shells| == |sorted|
    requires forall i | 0 <= i < |sorted| ::
      ShellBuiltFrom(OptionsOf(doc, sections[sorted[i]]), floatOk, sorted[i], shells[i])
    ensures ShellsDocumentOk(doc, floatOk)
    ensures SortedShellIndices(doc) == sorted && ShellsRead(doc, floatOk, sections, shells)
  {
    SortByCorrect<int>(inds, Identity);
    SortedAll(inds, ShellSectionNames(doc), sorted, sections, s => ShellParametersOk(OptionsOf(doc, s), floatOk));
    ShellsReadIntro(doc, floatOk, inds, sorted, sections, shells);
  }

  /** Shells whose user indices ascend strictly are ready for the consistency step. */
  lemma SortedShellsReady(sorted: seq<int>, shells: seq<Record>)
    requires StrictlyAscending(sorted) && |shells| == |sorted|
    requires forall i | 0 <= i < |sorted| :: HasUserIndex(shells[i]) && UserIndex(shells[i]) == sorted[i]
    ensures ShellsReady(shells)
  {
  }

  // ---------------------------------------------------------------------------
  // The reader object
  // ---------------------------------------------------------------------------

  /** What parse_input ends with once the shells and groups are read and reconciled. */
  lemma ReconciledInput(doc: Document, sh: seq<Record>, gr: seq<Record>, shells: seq<Record>, groups: seq<Record>)
    requires ShellsReady(sh) && GroupsReady(gr) && |sh| == |ShellSectionNames(doc)|
    requires Reconcile(sh, gr).Ok? && (shells, groups) == Reconcile(sh, gr).value
    ensures FinalModel(shells, groups) && |shells| == |ShellSectionNames(doc)|
  {
    ReconcileModel(sh, gr);
  }

  /** The outcome of parse_input on a document whose shells and groups read: sh are the
      shells read and built the groups read in file order; the consistency step on sh and
      the groups sorted by index decides the result, the final shells and groups, and the
      advisories that follow w0. */
  predicate InputReconciled(doc: Document, floatOk: string -> bool, sections: map<int, string>,
                            sh: seq<Record>, built: seq<Record>, r: Outcome,
                            shells: seq<Record>, groups: seq<Record>, w0: seq<Warning>, warnings: seq<Warning>) {
    && ShellsRead(doc, floatOk, sections, sh) && GroupsBuilt(doc, floatOk, built)
    && var gr := SortBy(built, IndexKey);
       && GroupsReady(gr)
       && (r.Pass? <==> Reconcile(sh, gr).Ok?)
       && (r.Pass? ==> && (shells, groups) == Reconcile(sh, gr).value
                       && warnings == w0 + IndexWarnings(SortedShellIndices(doc)) + ReconcileWarnings(sh, gr))
       && (r.Fail? ==> Reconcile(sh, gr) == Err(r.error))
  }

  lemma InputReconciledIntro(doc: Document, floatOk: string -> bool, sections: map<int, string>,
                             sh: seq<Record>, built: seq<Record>, gr: seq<Record>, r: Outcome, shells: seq<Record>,
                             groups: seq<Record>, w0: seq<Warning>, w1: seq<Warning>, warnings: seq<Warning>)
    requires ShellsRead(doc, floatOk, sections, sh) && GroupsBuilt(doc, floatOk, built)
    requires w1 == w0 + IndexWarnings(SortedShellIndices(doc))
    requires gr == SortBy(built, IndexKey) && GroupsReady(gr)
    requires r.Pass? <==> Reconcile(sh, gr).Ok?
    requires r.Pass? ==> && (shells, groups) == Reconcile(sh, gr).value
                         && warnings == w1 + ReconcileWarnings(sh, gr)
    requires r.Fail? ==> Reconcile(sh, gr) == Err(r.error)
    ensures InputReconciled(doc, floatOk, sections, sh, built, r, shells, groups, w0, warnings)
    ensures r.Pass? ==> FinalModel(shells, groups) && |shells| == |ShellSectionNames(doc)|
  {
    if r.Pass? {
      ReconciledInput(doc, sh, gr, shells, groups);
    }
  }

  class ConfigParameters {
    /** The parsed configuration document (ConfigParser.SafeConfigParser after readfp). */
    const cp: Document
    /** Whether float() accepts a string. */
    const floatOk: string -> bool

    /** Shell index to [Shell] section name. */
    var shSections: map<int, string>
    var nshells: int
    var shells: seq<Record>
    var ngroups: int
    var groups: seq<Record>
    /** The advisories issued so far (issue_warning). */
    ghost var warnings: seq<Warning>

    /** __init__ with the document already read; ConfigParser leaves no two sections
        with the same name. */
    constructor(cp: Document, floatOk: string -> bool)
      requires UniqueNames(cp)
      ensures this.cp == cp && this.floatOk == floatOk
      ensures shSections == map[] && shells == [] && groups == []
      ensures nshells == 0 && ngroups == 0 && warnings == []
    {
      this.cp := cp;
      this.floatOk := floatOk;
      shSections := map[];
      nshells := 0;
      shells := [];
      ngroups := 0;
      groups := [];
      warnings := [];
    }

    /** The body of parse_shells' loop (inpconf.py:246-280): the shell with user index
        ind read from one [Shell] section with the four tables in turn. */
    method ParseShellSection(ind: int, section: string) returns (r: Result<Record>)
      ensures r.Ok? <==> ShellParametersOk(OptionsOf(cp, section), floatOk)
      ensures r.Ok? ==> ShellBuiltFrom(OptionsOf(cp, section), floatOk, ind, r.value)
      ensures r.Err? ==> ShellError(OptionsOf(cp, section), section, floatOk, r.error)
    {
      var options := OptionsOf(cp, section);
      var p1 := ParseParameterSet(options, section, ShRequired, true, floatOk);
      if p1.Err? {
        return Err(p1.error);
      }
      var p2 := ParseParameterSet(options, section, ShOptional, false, floatOk);
      if p2.Err? {
        return Err(p2.error);
      }
      var p3 := ParseParameterSet(options, section, GrRequired, false, floatOk);
      if p3.Err? {
        return Err(p3.error);
      }
      var p4 := ParseParameterSet(options, section, GrOptional, false, floatOk);
      if p4.Err? {
        return Err(p4.error);
      }
      BuildShell(options, floatOk, ind, p1.value, p2.value, p3.value, p4.value);
      return Ok(map["user_index" := Int(ind)] + p1.value + p2.value + p3.value + p4.value);
    }

    /** The loop of parse_shells (inpconf.py:246-280): one shell per index, in the order
        given, each read from the section the index names. */
    method ParseShellList(inds: seq<int>, sections: map<int, string>) returns (r: Result<seq<Record>>)
      requires forall i | 0 <= i < |inds| :: inds[i] in sections
      ensures r.Ok? <==> forall i | 0 <= i < |inds| :: ShellParametersOk(OptionsOf(cp, sections[inds[i]]), floatOk)
      ensures r.Ok? ==> && |r.value| == |inds|
                        && forall i | 0 <= i < |inds| ::
                             ShellBuiltFrom(OptionsOf(cp, sections[inds[i]]), floatOk, inds[i], r.value[i])
      ensures r.Err? ==> exists k | 0 <= k < |inds| :: FailsFirstAt(cp, floatOk, inds, sections, k, r.error)
    {
      var built: seq<Record> := [];
      for k := 0 to |inds|
        invariant |built| == k
        invariant forall i | 0 <= i < k :: ShellParametersOk(OptionsOf(cp, sections[inds[i]]), floatOk)
        invariant forall i | 0 <= i < k ::
          ShellBuiltFrom(OptionsOf(cp, sections[inds[i]]), floatOk, inds[i], built[i])
      {
        var shell := ParseShellSection(inds[k], sections[inds[k]]);
        if shell.Err? {
          assert FailsFirstAt(cp, floatOk, inds, sections, k, shell.error);
          return Err(shell.error);
        }
        built := built + [shell.value];
      }
      return Ok(built);
    }

    /** The work of parse_shells (inpconf.py:202-282) on values: the sections by index,
        the indices in ascending order and one shell per index, or the first error. */
    method ReadShells() returns (r: Result<(map<int, string>, seq<int>, seq<Record>)>)
      ensures r.Ok? <==> ShellsDocumentOk(cp, floatOk)
      ensures r.Err? ==> ShellsFailure(cp, floatOk, r.error)
      ensures r.Ok? ==> && r.value.1 == SortedShellIndices(cp)
                        && |r.value.2| == |ShellSectionNames(cp)| && ShellsReady(r.value.2)
                        && ShellsRead(cp, floatOk, r.value.0, r.value.2)
    {
      var secShells := SectionNames(cp, "shell");
      assert secShells == ShellSectionNames(cp);
      if |secShells| == 0 {
        ShellsNoSection(cp, floatOk);
        return Err(NoShells);
      }
      var found := SectionIndices(secShells, "shell");
      if found.None? {
        ShellsIndexUnreadable(cp, floatOk);
        return Err(ShellIndexUnreadable(secShells));
      }
      var sections := ZipToMap(found.value, secShells);
      // Section names are unique, but their indices need not be: 'shell 1' and 'shell 01'.
      if !Distinct(found.value) {
        ShellsDuplicateIndex(cp, floatOk, found.value);
        return Err(DuplicateShellIndex);
      }
      var shInds: seq<int> := found.value;
      var sorted := SortBy<int>(shInds, Identity);
      SortByCorrect<int>(shInds, Identity);
      SortedSections(found.value, secShells, sorted, sections);
      var list := ParseShellList(sorted, sections);
      if list.Err? {
        ShellsSectionFails(cp, floatOk, found.value, sorted, sections, list.error);
        return Err(list.error);
      }
      ShellsAllRead(cp, floatOk, found.value, sorted, sections, list.value);
      return Ok((sections, sorted, list.value));
    }

    /** parse_shells: reads every [Shell] section into a shell record, in ascending
        order of the sections' indices, and warns when the indices are not 1, ..., n. */
    method ParseShells() returns (r: Outcome)
      modifies this`shSections, this`nshells, this`shells, this`warnings
      ensures r.Pass? <==> ShellsDocumentOk(cp, floatOk)
      ensures r.Fail? ==> ShellsFailure(cp, floatOk, r.error)
      ensures r.Pass? ==> && nshells == |shells| == |ShellSectionNames(cp)|
                          && ShellsReady(shells)
                          && ShellsRead(cp, floatOk, shSections, shells)
                          && warnings == old(warnings) + IndexWarnings(SortedShellIndices(cp))
    {
      nshells := |ShellSectionNames(cp)|;
      var read := ReadShells();
      if read.Err? {
        return Fail(read.error);
      }
      shSections := read.value.0;
      // The advisory for indices other than 1, ..., n.
      warnings := warnings + IndexWarnings(read.value.1);
      shells := read.value.2;
      return Pass;
    }

    /** The body of parse_groups' loop (inpconf.py:302-328): the group read from one
        [Group] section. */
    method ParseGroupSection(section: string) returns (r: Result<Record>)
      ensures r.Ok? <==> SectionIndex(section, "group").Some? && GroupParametersOk(OptionsOf(cp, section), floatOk)
      ensures r.Ok? ==> && GroupBuiltFrom(OptionsOf(cp, section), floatOk, SectionIndex(section, "group").value, r.value)
                        && "shells" in r.value && r.value["shells"].IntList?
      ensures r.Err? ==> GroupError(OptionsOf(cp, section), section, floatOk, r.error)
    {
      var grInd := SectionIndex(section, "group");
      if grInd.None? {
        return Err(GroupIndexUnreadable(section));
      }
      var options := OptionsOf(cp, section);
      var p1 := ParseParameterSet(options, section, GrRequired, true, floatOk);
      if p1.Err? {
        return Err(p1.error);
      }
      var p2 := ParseParameterSet(options, section, GrOptional, false, floatOk);
      if p2.Err? {
        return Err(p2.error);
      }
      BuildGroup(options, floatOk, grInd.value, p1.value, p2.value);
      return Ok(map["index" := Int(grInd.value)] + p1.value + p2.value);
    }

    /** The loop of parse_groups (inpconf.py:313-325): every [Group] section in file order,
        stopping at the first that does not read. */
    method ReadGroups() returns (r: Result<seq<Record>>)
      ensures r.Ok? <==> GroupsDocumentOk(cp, floatOk)
      ensures r.Err? ==> GroupsFailure(cp, floatOk, r.error)
      ensures r.Ok? ==> && |r.value| == |GroupSectionNames(cp)|
                        && forall i | 0 <= i < |r.value| :: GroupRead(cp, floatOk, GroupSectionNames(cp)[i], r.value[i])
    {
      var secGroups := SectionNames(cp, "group");
      assert GroupSectionNames(cp) == secGroups;
      var built := [];
      for k := 0 to |secGroups|
        invariant |built| == k
        invariant forall i | 0 <= i < k :: GroupRead(cp, floatOk, secGroups[i], built[i])
      {
        var group := ParseGroupSection(secGroups[k]);
        if group.Err? {
          assert !(SectionIndex(secGroups[k], "group").Some? && GroupParametersOk(OptionsOf(cp, secGroups[k]), floatOk));
          assert forall j | 0 <= j < k :: GroupSectionOk(cp, floatOk, secGroups[j]);
          return Err(group.error);
        }
        assert GroupRead(cp, floatOk, secGroups[k], group.value);
        built := built + [group.value];
      }
      GroupsReadAll(cp, floatOk, built);
      return Ok(built);
    }

    /** parse_groups: reads every [Group] section into a group record, then orders the
        groups by their indices (a stable sort, so groups with equal indices keep file
        order). built holds the records in file order. */
    method ParseGroups() returns (r: Outcome, ghost built: seq<Record>)
      modifies this`ngroups, this`groups
      ensures shSections == old(shSections) && shells == old(shells) && warnings == old(warnings)
      ensures r.Pass? <==> GroupsDocumentOk(cp, floatOk)
      ensures r.Fail? ==> GroupsFailure(cp, floatOk, r.error)
      ensures r.Pass? ==> && ngroups == |groups| && GroupsBuilt(cp, floatOk, built)
                          && groups == SortBy(built, IndexKey)
                          && GroupsReady(groups)
    {
      ngroups := |GroupSectionNames(cp)|;
      groups := [];
      var read := ReadGroups();
      if read.Err? {
        return Fail(read.error), [];
      }
      built := read.value;
      GroupsReadBuilt(cp, floatOk, built);
      groups := read.value;
      SortedGroupsReady(built);
      SortByCorrect(built, IndexKey);
      // Python sorts only when there is a group; sorting an empty list changes nothing.
      if ngroups > 0 {
        groups := SortBy(groups, IndexKey);
      }
      return Pass, built;
    }

    /** inpconf.py:350-377: without [Group] sections the lone shell becomes a group of its
        own. The source pops from self.shells[ind] with an unbound ind and calls update on
        a list; the model pops from shells[0] and sets the group's shell list to the
        shell's user index, as evidently intended. */
    method MakeImplicitGroup() returns (r: Outcome)
      requires ngroups == 0 && |groups| == 0 && nshells == |shells|
      requires ShellsReady(shells)
      modifies this`shells, this`groups
      ensures r.Pass? <==> Defaulted(old(shells), old(groups)).Ok?
      ensures r.Pass? ==> (shells, groups) == Defaulted(old(shells), old(groups)).value
      ensures r.Fail? ==> Defaulted(old(shells), old(groups)) == Err(r.error)
    {
      if nshells != 1 {
        return Fail(AmbiguousGrouping);
      }
      var u := UserIndex(shells[0]);
      var split := SplitGroupKeys(shells[0]);
      if split.None? {
        return Fail(IncompleteImplicitGroup);
      }
      var (shell, group) := split.value;
      assert old(groups) + [ImplicitGroup(old(shells)[0])] == [group["shells" := IntList([u])]];
      shells := [shell];
      groups := [group["shells" := IntList([u])]];
      return Pass;
    }

    /** inpconf.py:402-421: removes every group parameter from the shell at position p,
        with one advisory per parameter it held. The source's two loops (required, then
        optional keywords) are one loop over the key order here. */
    method DiscardGroupParameters(p: nat, u: int)
      requires p < |shells|
      modifies this`shells, this`warnings
      ensures shells == old(shells)[p := Strip(old(shells)[p])]
      ensures warnings == old(warnings) + KeyWarnings(GroupKeyOrder, old(shells)[p], u)
    {
      var shell, ws := DiscardKeys(shells[p], u);
      warnings := warnings + ws;
      shells := shells[p := shell];
    }

    /** One entry u of a group's shell list (inpconf.py:386-421): the shell with user
        index u is looked up and loses its group parameters. inds holds the positions
        found for the references visited before this one. */
    method ResolveReference(u: int, inds: seq<int>, ghost all: seq<Reference>, ghost sh0: seq<Record>,
                            ghost w0: seq<Warning>)
      returns (found: Option<nat>, next: seq<int>)
      requires ShellsReady(sh0) && Progress(all, sh0, inds, shells)
      requires |inds| < |all| && all[|inds|].userIndex == u
      requires warnings == w0 + ResolutionWarnings(all[..|inds|], sh0)
      modifies this`shells, this`warnings
      ensures found == FirstPosition(sh0, u)
      ensures found.None? ==> shells == old(shells) && next == inds
      ensures found.Some? ==> && next == inds + [found.value] && |next| == |inds| + 1
                              && Progress(all, sh0, next, shells)
                              && warnings == w0 + ResolutionWarnings(all[..|next|], sh0)
    {
      ProgressLookup(all, sh0, inds, shells, u);
      found := FindShellByUserIndex(shells, u);
      if found.None? {
        return found, inds;
      }
      var p := found.value;
      next := inds + [p];
      ProgressAdvance(all, sh0, inds, shells, p, w0);
      DiscardGroupParameters(p, u);
    }

    /** The loop of inpconf.py:380-421 over the shell list of group gi. inds0 holds the
        positions found for the references of the earlier groups. */
    method ResolveGroup(gi: nat, inds0: seq<int>, ghost sh0: seq<Record>, ghost w0: seq<Warning>)
      returns (r: Outcome, inds: seq<int>)
      requires GroupsReady(groups) && gi < |groups| && ShellsReady(sh0)
      requires |inds0| == |References(groups[..gi])|
      requires Progress(References(groups), sh0, inds0, shells)
      requires warnings == w0 + ResolutionWarnings(References(groups)[..|inds0|], sh0)
      modifies this`shells, this`warnings
      ensures r.Pass? ==> && |inds| == |References(groups[..gi + 1])|
                          && Progress(References(groups), sh0, inds, shells)
                          && warnings == w0 + ResolutionWarnings(References(groups)[..|inds|], sh0)
      ensures r.Fail? ==> && FirstUnresolved(References(groups), sh0).Some?
                          && var ref := FirstUnresolved(References(groups), sh0).value;
                             r.error == UnknownShellReference(ref.userIndex, ref.group)
    {
      ghost var grs := groups;
      ghost var all := References(grs);
      ghost var base := |References(grs[..gi])|;
      var group := groups[gi];
      var grShells := group["shells"].xs;
      ReferencesStep(grs, gi);
      ReferencesPrefix(grs, gi + 1);
      inds := inds0;
      var j := 0;
      while j < |grShells|
        invariant 0 <= j <= |grShells|
        invariant |inds| == base + j
        invariant Progress(all, sh0, inds, shells)
        invariant warnings == w0 + ResolutionWarnings(all[..|inds|], sh0)
      {
        var u := grShells[j];
        ReferencesAt(grs, gi, j);
        assert all[base + j] == Reference(u, GroupIndex(group));
        var found;
        found, inds := ResolveReference(u, inds, all, sh0, w0);
        if found.None? {
          ProgressStuck(all, sh0, inds, shells);
          return Fail(UnknownShellReference(u, GroupIndex(group))), inds;
        }
        j := j + 1;
      }
      return Pass, inds;
    }

    /** The loop of inpconf.py:380-421 over every group; shInds holds one position per
        reference (sh_refs_used). */
    method ResolveGroups(ghost sh0: seq<Record>, ghost w0: seq<Warning>) returns (r: Outcome, shInds: seq<int>)
      requires GroupsReady(groups) && ShellsReady(sh0) && shells == sh0 && warnings == w0
      modifies this`shells, this`warnings
      ensures r.Pass? ==> && |shInds| == |References(groups)|
                          && Progress(References(groups), sh0, shInds, shells)
                          && warnings == w0 + ResolutionWarnings(References(groups), sh0)
      ensures r.Fail? ==> && FirstUnresolved(References(groups), sh0).Some?
                          && var ref := FirstUnresolved(References(groups), sh0).value;
                             r.error == UnknownShellReference(ref.userIndex, ref.group)
    {
      ghost var gr0 := groups;
      ghost var all := References(gr0);
      ProgressStart(all, sh0);
      shInds := [];
      var gi := 0;
      assert gr0[..0] == [];
      while gi < |groups|
        invariant 0 <= gi <= |groups| && groups == gr0
        invariant |shInds| == |References(gr0[..gi])|
        invariant Progress(all, sh0, shInds, shells)
        invariant warnings == w0 + ResolutionWarnings(all[..|shInds|], sh0)
        decreases |gr0| - gi
      {
        r, shInds := ResolveGroup(gi, shInds, sh0, w0);
        if r.Fail? {
          return;
        }
        gi := gi + 1;
      }
      assert gr0[..gi] == gr0;
      assert all[..|shInds|] == all;
      return Pass, shInds;
    }

    /** groups_shells_consistency: the implicit group, resolution of every reference with
        removal of group parameters from the shells referenced, and the coverage check. */
    method GroupsShellsConsistency() returns (r: Outcome)
      requires nshells == |shells| && ngroups == |groups|
      requires ShellsReady(shells) && GroupsReady(groups)
      modifies this`shells, this`groups, this`warnings
      ensures r.Pass? <==> Reconcile(old(shells), old(groups)).Ok?
      ensures r.Pass? ==> (shells, groups) == Reconcile(old(shells), old(groups)).value
      ensures r.Pass? ==> warnings == old(warnings) + ReconcileWarnings(old(shells), old(groups))
      ensures r.Fail? ==> Reconcile(old(shells), old(groups)) == Err(r.error)
    {
      if ngroups == 0 {
        r := MakeImplicitGroup();
        if r.Fail? {
          return;
        }
      }
      ghost var sh0 := shells;
      ghost var gr0 := groups;
      assert Defaulted(old(shells), old(groups)) == Ok((sh0, gr0));
      var shInds;
      r, shInds := ResolveGroups(sh0, warnings);
      if r.Fail? {
        ReconcileStuck(old(shells), old(groups), sh0, gr0);
        return;
      }
      ReconcileResolved(old(shells), old(groups), sh0, gr0, shInds, shells);
      // set(sh_refs_used) against range(nshells)
      if Members(shInds) != Members(Range(0, nshells)) {
        return Fail(UnreferencedShells);
      }
      return Pass;
    }

    /** The first two steps of parse_input: parse_shells, then parse_groups once the
        shells are read. built holds the groups in file order. */
    method ReadSections() returns (r: Outcome, ghost built: seq<Record>)
      modifies this`shSections, this`nshells, this`shells, this`warnings, this`ngroups, this`groups
      ensures !ShellsDocumentOk(cp, floatOk) ==> r.Fail? && ShellsFailure(cp, floatOk, r.error)
      ensures ShellsDocumentOk(cp, floatOk) && !GroupsDocumentOk(cp, floatOk) ==>
                r.Fail? && GroupsFailure(cp, floatOk, r.error)
      ensures r.Pass? <==> ShellsDocumentOk(cp, floatOk) && GroupsDocumentOk(cp, floatOk)
      ensures r.Pass? ==> && ShellsRead(cp, floatOk, shSections, shells) && nshells == |shells|
                          && warnings == old(warnings) + IndexWarnings(SortedShellIndices(cp))
      ensures r.Pass? ==> && GroupsBuilt(cp, floatOk, built) && ngroups == |groups|
                          && groups == SortBy(built, IndexKey) && GroupsReady(groups)
    {
      built := [];
      r := ParseShells();
      if r.Fail? {
        return;
      }
      r, built := ParseGroups();
    }

    /** parse_input: the three steps in order. Reading the file is not modelled. sh holds
        the shells parse_shells reads and built the groups parse_groups reads, in file
        order; the consistency step starts from sh and the groups sorted by index. */
    method ParseInput() returns (r: Outcome, ghost sh: seq<Record>, ghost built: seq<Record>)
      modifies this`shSections, this`nshells, this`shells, this`warnings, this`ngroups, this`groups
      ensures !ShellsDocumentOk(cp, floatOk) ==> r.Fail? && ShellsFailure(cp, floatOk, r.error)
      ensures ShellsDocumentOk(cp, floatOk) && !GroupsDocumentOk(cp, floatOk) ==>
                r.Fail? && GroupsFailure(cp, floatOk, r.error)
      ensures ShellsDocumentOk(cp, floatOk) && GroupsDocumentOk(cp, floatOk) ==>
                InputReconciled(cp, floatOk, shSections, sh, built, r, shells, groups, old(warnings), warnings)
      ensures r.Pass? ==> FinalModel(shells, groups) && |shells| == |ShellSectionNames(cp)|
    {
      ghost var w0 := warnings;
      r, built := ReadSections();
      sh := shells;
      if r.Fail? {
        return;
      }
      ghost var w1 := warnings;
      ghost var gr := groups;
      r := GroupsShellsConsistency();
      InputReconciledIntro(cp, floatOk, shSections, sh, built, gr, r, shells, groups, w0, w1, warnings);
    }
  }
}
