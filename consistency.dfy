/** What groups_shells_consistency (inpconf.py:339-427) computes, stated on values: the
    implicit group built from a lone shell, the resolution of every group's shell
    references, the removal of group parameters from the referenced shells, and the
    check that every shell belongs to some group. */
module Consistency {
  import opened Results
  import opened Sorting
  import opened Schema
  import opened ValueParsers

  /** The non-fatal advisories of the reader. */
  datatype Warning =
    | NonContiguousShellIndices                     // inpconf.py:239-242
    | RedundantGroupParameter(par: string, shell: int)  // inpconf.py:402-421

  /** The internal names of the group parameters, in the order the model visits them.
      (The source visits a dict's keys, in an order Python does not specify.) */
  const RequiredGroupKeys: seq<string> := ["shells", "emin", "emax"]
  const OptionalGroupKeys: seq<string> := ["normalize", "normion"]
  const GroupKeyOrder: seq<string> := RequiredGroupKeys + OptionalGroupKeys

  /** Every internal name of a group parameter: those of the tables GrRequired and
      GrOptional, as GroupKeyTables shows. */
  function GroupKeys(): set<string> {
    {"shells", "emin", "emax", "normalize", "normion"}
  }

  lemma GroupKeyTables()
    ensures Names(GrRequired) == {"shells", "emin", "emax"}
    ensures Names(GrOptional) == {"normalize", "normion"}
    ensures GroupKeys() == Names(GrRequired) + Names(GrOptional)
    ensures forall k | k in GroupKeyOrder :: k in GroupKeys()
    ensures forall k | k in GroupKeys() :: k in GroupKeyOrder
    ensures Distinct(GroupKeyOrder)
  {
    TableNames();
  }

  // ---------------------------------------------------------------------------
  // Records
  // ---------------------------------------------------------------------------

  predicate HasUserIndex(shell: Record) {
    "user_index" in shell && shell["user_index"].Int?
  }

  function UserIndex(shell: Record): int
    requires HasUserIndex(shell)
  {
    shell["user_index"].i
  }

  /** What parse_shells leaves behind: every shell carries its user index, and the
      shells are in strictly ascending user-index order. */
  predicate ShellsReady(shells: seq<Record>) {
    && (forall i | 0 <= i < |shells| :: HasUserIndex(shells[i]))
    && (forall i, j | 0 <= i < j < |shells| :: UserIndex(shells[i]) < UserIndex(shells[j]))
  }

  /** What parse_groups leaves behind: every group lists its shells. */
  predicate GroupsReady(groups: seq<Record>) {
    forall i | 0 <= i < |groups| :: "shells" in groups[i] && groups[i]["shells"].IntList?
  }

  function GroupIndex(group: Record): Option<int> {
    if "index" in group && group["index"].Int? then Some(group["index"].i) else None
  }

  /** The position of the first shell with user index u (find_shell_by_user_index). */
  function FirstPosition(shells: seq<Record>, u: int): (r: Option<nat>)
    requires forall i | 0 <= i < |shells| :: HasUserIndex(shells[i])
    ensures r.Some? ==> (&& r.value < |shells| && UserIndex(shells[r.value]) == u
                         && forall j | 0 <= j < r.value :: UserIndex(shells[j]) != u)
    ensures r.None? ==> forall j | 0 <= j < |shells| :: UserIndex(shells[j]) != u
    decreases |shells|
  {
    if shells == [] then None
    else if UserIndex(shells[0]) == u then Some(0)
    else
      match FirstPosition(shells[1..], u)
      case None => None
      case Some(p) => Some(p + 1)
  }

  /** find_shell_by_user_index, with the position returned beside the shell. */
  method FindShellByUserIndex(shells: seq<Record>, u: int) returns (r: Option<nat>)
    requires forall i | 0 <= i < |shells| :: HasUserIndex(shells[i])
    ensures r == FirstPosition(shells, u)
  {
    var ind := 0;
    while ind < |shells|
      invariant 0 <= ind <= |shells|
      invariant forall j | 0 <= j < ind :: UserIndex(shells[j]) != u
    {
      if UserIndex(shells[ind]) == u {
        return Some(ind);
      }
      ind := ind + 1;
    }
    return None;
  }

  /** Line 394 as written: `ind, shell = find_shell_by_user_index(user_ind)` unpacks the
      shell dictionary that the lookup returns, that is its keys. Two names take exactly two
      keys, else ValueError; with two keys shell is bound to a key, a string, and
      shell.pop raises AttributeError. A missing shell raises the KeyError the caller
      reports. No reference ever resolves. */
  function ResolveAsWritten(shells: seq<Record>, u: int, group: Option<int>): (r: Result<nat>)
    requires forall i | 0 <= i < |shells| :: HasUserIndex(shells[i])
    ensures r.Err?
    ensures r == Err(UnknownShellReference(u, group)) <==> FirstPosition(shells, u).None?
  {
    match FirstPosition(shells, u)
    case None => Err(UnknownShellReference(u, group))
    case Some(p) =>
      var size := |shells[p].Keys|;
      if size == 2 then Err(NoAttribute("pop")) else Err(UnpackMismatch(size))
  }

  /** A shell read from a [Shell] section holds its user index, its ion list and its l, so
      the reference to it fails to unpack as written, while the lookup that returns the
      position finds it. */
  lemma ResolveAsWrittenUnpacks(shells: seq<Record>, u: int, group: Option<int>, p: nat)
    requires ShellsReady(shells) && p < |shells| && UserIndex(shells[p]) == u
    requires "ion_list" in shells[p] && "lshell" in shells[p]
    ensures FirstPosition(shells, u) == Some(p)
    ensures |shells[p].Keys| >= 3
    ensures ResolveAsWritten(shells, u, group) == Err(UnpackMismatch(|shells[p].Keys|))
  {
    FirstPositionReady(shells, u, p);
    var named: set<string> := {"user_index", "ion_list", "lshell"};
    assert named <= shells[p].Keys;
    assert |named| == 3;
    SubsetAtMost(named, shells[p].Keys);
  }

  lemma {:induction false} SubsetAtMost<T>(a: set<T>, b: set<T>)
    requires a <= b
    ensures |a| <= |b|
    decreases |a|
  {
    if a != {} {
      var x :| x in a;
      SubsetAtMost(a - {x}, b - {x});
    }
  }

  /** In strictly ascending shells, the reference u lands on position i exactly when the
      shell at i has user index u. */
  lemma FirstPositionReady(shells: seq<Record>, u: int, i: nat)
    requires ShellsReady(shells) && i < |shells|
    ensures FirstPosition(shells, u) == Some(i) <==> UserIndex(shells[i]) == u
  {
  }

  /** Shell lists that agree on every user index resolve every reference alike. */
  predicate SameUserIndices(a: seq<Record>, b: seq<Record>) {
    && |a| == |b|
    && (forall i | 0 <= i < |a| :: HasUserIndex(a[i]) && HasUserIndex(b[i]) && UserIndex(a[i]) == UserIndex(b[i]))
  }

  lemma {:induction false} FirstPositionSame(a: seq<Record>, b: seq<Record>, u: int)
    requires SameUserIndices(a, b)
    ensures FirstPosition(a, u) == FirstPosition(b, u)
    decreases |a|
  {
    if a != [] {
      FirstPositionSame(a[1..], b[1..], u);
    }
  }

  // ---------------------------------------------------------------------------
  // References
  // ---------------------------------------------------------------------------

  /** One entry of a group's shell list, with the index of the group that holds it. */
  datatype Reference = Reference(userIndex: int, group: Option<int>)

  function GroupReferences(group: Record): seq<Reference>
    requires "shells" in group && group["shells"].IntList?
  {
    var xs := group["shells"].xs;
    seq(|xs|, k requires 0 <= k < |xs| => Reference(xs[k], GroupIndex(group)))
  }

  /** All references of all groups, group by group, in list order. */
  function References(groups: seq<Record>): seq<Reference>
    requires GroupsReady(groups)
    decreases |groups|
  {
    if groups == [] then []
    else References(groups[..|groups| - 1]) + GroupReferences(groups[|groups| - 1])
  }

  predicate Referenced(refs: seq<Reference>, u: int) {
    exists k | 0 <= k < |refs| :: refs[k].userIndex == u
  }

  predicate AllResolve(refs: seq<Reference>, shells: seq<Record>)
    requires forall i | 0 <= i < |shells| :: HasUserIndex(shells[i])
  {
    forall k | 0 <= k < |refs| :: FirstPosition(shells, refs[k].userIndex).Some?
  }

  /** The first reference, in list order, that names no shell. */
  function FirstUnresolved(refs: seq<Reference>, shells: seq<Record>): (r: Option<Reference>)
    requires forall i | 0 <= i < |shells| :: HasUserIndex(shells[i])
    ensures r.None? <==> AllResolve(refs, shells)
    decreases |refs|
  {
    if refs == [] then None
    else if FirstPosition(shells, refs[0].userIndex).None? then Some(refs[0])
    else
      var r := FirstUnresolved(refs[1..], shells);
      assert r.None? <==> AllResolve(refs, shells) by {
        if AllResolve(refs[1..], shells) {
          forall k | 0 <= k < |refs| ensures FirstPosition(shells, refs[k].userIndex).Some? {
            if k > 0 { assert refs[k] == refs[1..][k - 1]; }
          }
        } else {
          var k :| 0 <= k < |refs[1..]| && FirstPosition(shells, refs[1..][k].userIndex).None?;
          assert refs[1..][k] == refs[k + 1];
        }
      }
      r
  }

  lemma {:induction false} FirstUnresolvedAt(refs: seq<Reference>, shells: seq<Record>, m: nat)
    requires forall i | 0 <= i < |shells| :: HasUserIndex(shells[i])
    requires m < |refs| && AllResolve(refs[..m], shells)
    requires FirstPosition(shells, refs[m].userIndex).None?
    ensures FirstUnresolved(refs, shells) == Some(refs[m])
    decreases m
  {
    if m > 0 {
      assert refs[..m][0] == refs[0];
      var tail := refs[1..];
      var t := tail[..m - 1];
      forall k | 0 <= k < |t| ensures FirstPosition(shells, t[k].userIndex).Some? {
        assert t[k] == refs[..m][k + 1];
      }
      assert tail[m - 1] == refs[m];
      FirstUnresolvedAt(tail, shells, m - 1);
    }
  }

  // ---------------------------------------------------------------------------
  // Phase 1: the implicit group
  // ---------------------------------------------------------------------------

  /** The fields of m whose names are in ks. */
  function Restrict(m: Record, ks: set<string>): Record {
    map k | k in m && k in ks :: m[k]
  }

  function KeySet(keys: seq<string>): set<string> {
    set k | k in keys
  }

  lemma KeySetStep(keys: seq<string>, k: nat)
    requires k < |keys|
    ensures KeySet(keys[..k + 1]) == KeySet(keys[..k]) + {keys[k]}
    ensures KeySet(keys[..0]) == {}
  {
    assert keys[..k + 1] == keys[..k] + [keys[k]];
  }

  /** Moving one more field present in s0: the shell loses it and the group gains it. */
  lemma MoveKey(s0: Record, done: set<string>, key: string)
    requires key in s0 && key !in done
    ensures (s0 - done) - {key} == s0 - (done + {key})
    ensures Restrict(s0, done)[key := (s0 - done)[key]] == Restrict(s0, done + {key})
  {
  }

  /** Moving a field absent from s0 changes nothing. */
  lemma SkipKey(s0: Record, done: set<string>, key: string)
    requires key !in s0
    ensures s0 - done == s0 - (done + {key})
    ensures Restrict(s0, done) == Restrict(s0, done + {key})
  {
  }

  /** The group made from a lone shell: the shell's group parameters moved over, and its
      shell list replaced by the shell's own user index. */
  function ImplicitGroup(shell: Record): Record
    requires HasUserIndex(shell)
  {
    Restrict(shell, GroupKeys())["shells" := IntList([UserIndex(shell)])]
  }

  /** One key of MoveFields: it is on the shell so far exactly when it is on s0, and
      moving it (or skipping it when absent) extends the keys done by one. */
  lemma MoveStep(s0: Record, done: set<string>, keys: seq<string>, k: nat)
    requires Distinct(keys) && forall j | 0 <= j < |keys| :: keys[j] !in done
    requires k < |keys|
    ensures var before := done + KeySet(keys[..k]);
      var after := done + KeySet(keys[..k + 1]);
      var shell := s0 - before;
      var group := Restrict(s0, before);
      && (keys[k] in shell <==> keys[k] in s0)
      && (keys[k] in shell ==> shell - {keys[k]} == s0 - after
                               && group[keys[k] := shell[keys[k]]] == Restrict(s0, after))
      && (keys[k] !in shell ==> shell == s0 - after && group == Restrict(s0, after))
  {
    var key := keys[k];
    var before := done + KeySet(keys[..k]);
    KeySetStep(keys, k);
    assert done + KeySet(keys[..k + 1]) == before + {key};
    assert forall j | 0 <= j < k :: keys[..k][j] == keys[j] != key;
    assert key !in before;
    if key in s0 {
      MoveKey(s0, before, key);
    } else {
      SkipKey(s0, before, key);
    }
  }

  /** The key orders agree with the tables: no key twice, the required keys are the
      required table's names, and together they are all group keys. */
  lemma GroupKeyOrders()
    ensures Distinct(RequiredGroupKeys) && Distinct(OptionalGroupKeys)
    ensures KeySet(RequiredGroupKeys) == Names(GrRequired)
    ensures KeySet(RequiredGroupKeys) + KeySet(OptionalGroupKeys) == GroupKeys()
    ensures forall j | 0 <= j < |OptionalGroupKeys| :: OptionalGroupKeys[j] !in KeySet(RequiredGroupKeys)
    ensures KeySet(GroupKeyOrder) == GroupKeys()
  {
    GroupKeyTables();
    assert KeySet(RequiredGroupKeys) == {"shells", "emin", "emax"};
    assert KeySet(OptionalGroupKeys) == {"normalize", "normion"};
  }

  /** One of the loops of inpconf.py:358-372: each key of keys is moved from the shell
      to the group, where s0 - done and Restrict(s0, done) are the shell and the group so
      far. A required key that is absent is a failure; an optional one is skipped. */
  method MoveFields(s0: Record, done: set<string>, keys: seq<string>, required: bool)
    returns (r: Option<(Record, Record)>)
    requires Distinct(keys) && forall j | 0 <= j < |keys| :: keys[j] !in done
    ensures r.Some? <==> (required ==> forall j | 0 <= j < |keys| :: keys[j] in s0)
    ensures r.Some? ==> r.value == (s0 - (done + KeySet(keys)), Restrict(s0, done + KeySet(keys)))
  {
    var shell := s0 - done;
    var group := Restrict(s0, done);
    KeySetStep(keys + [""], 0);
    assert done + KeySet(keys[..0]) == done;
    var k := 0;
    while k < |keys|
      invariant 0 <= k <= |keys|
      invariant required ==> forall j | 0 <= j < k :: keys[j] in s0
      invariant shell == s0 - (done + KeySet(keys[..k]))
      invariant group == Restrict(s0, done + KeySet(keys[..k]))
    {
      var key := keys[k];
      MoveStep(s0, done, keys, k);
      if key in shell {
        group := group[key := shell[key]];
        shell := shell - {key};
      } else if required {
        return None;
      }
      k := k + 1;
    }
    assert keys[..k] == keys;
    return Some((shell, group));
  }

  /** The two loops of inpconf.py:358-372 on one shell: every required group parameter
      is moved to the new group (failing when one is absent), then every optional one
      the shell holds. The result is the stripped shell and the group's fields. */
  method SplitGroupKeys(s0: Record) returns (r: Option<(Record, Record)>)
    ensures r.Some? <==> Names(GrRequired) <= s0.Keys
    ensures r.Some? ==> r.value == (Strip(s0), Restrict(s0, GroupKeys()))
  {
    GroupKeyOrders();
    var req := MoveFields(s0, {}, RequiredGroupKeys, true);
    assert {} + KeySet(RequiredGroupKeys) == Names(GrRequired);
    if req.None? {
      var j :| 0 <= j < |RequiredGroupKeys| && RequiredGroupKeys[j] !in s0;
      assert RequiredGroupKeys[j] in KeySet(RequiredGroupKeys);
      return None;
    }
    assert Names(GrRequired) <= s0.Keys by {
      forall key | key in Names(GrRequired) ensures key in s0 {
        var j :| 0 <= j < |RequiredGroupKeys| && RequiredGroupKeys[j] == key;
      }
    }
    r := MoveFields(s0, Names(GrRequired), OptionalGroupKeys, false);
  }

  /** The shells and groups after the special case of a document without groups. */
  function Defaulted(shells: seq<Record>, groups: seq<Record>): (r: Result<(seq<Record>, seq<Record>)>)
    requires ShellsReady(shells) && GroupsReady(groups)
    ensures r.Ok? ==> ShellsReady(r.value.0) && GroupsReady(r.value.1)
    ensures r.Ok? ==> SameUserIndices(r.value.0, shells)
  {
    if |groups| != 0 then Ok((shells, groups))
    else if |shells| != 1 then Err(AmbiguousGrouping)
    else if !(Names(GrRequired) <= shells[0].Keys) then Err(IncompleteImplicitGroup)
    else Ok(([shells[0] - GroupKeys()], groups + [ImplicitGroup(shells[0])]))
  }

  /** inpconf.py:349-377 as written. Once the required keys have been moved, the first
      optional key reads self.shells[ind]; ind is a local of groups_shells_consistency
      that is bound only at line 394, so Python raises UnboundLocalError there, which the
      surrounding except KeyError does not catch. (Line 377 would then call update on
      the list self.groups.) */
  function DefaultedAsWritten(shells: seq<Record>, groups: seq<Record>): (r: Result<(seq<Record>, seq<Record>)>)
    requires ShellsReady(shells) && GroupsReady(groups)
    ensures |groups| == 0 ==> r.Err?
  {
    if |groups| != 0 then Ok((shells, groups))
    else if |shells| != 1 then Err(AmbiguousGrouping)
    else if !(Names(GrRequired) <= shells[0].Keys) then Err(IncompleteImplicitGroup)
    else Err(UnboundLocal("ind"))
  }

  /** A document with one [Shell] section that holds every required group parameter and
      no [Group] section: the code as written rejects it, while the intended special
      case turns the shell into a group of its own that references it. */
  lemma DefaultedAsWrittenRejects(shells: seq<Record>, groups: seq<Record>)
    requires ShellsReady(shells) && GroupsReady(groups)
    requires |groups| == 0 && |shells| == 1 && Names(GrRequired) <= shells[0].Keys
    ensures DefaultedAsWritten(shells, groups) == Err(UnboundLocal("ind"))
    ensures Defaulted(shells, groups).Ok?
    ensures var (sh, gr) := Defaulted(shells, groups).value;
      && |sh| == 1 && |gr| == 1 && UserIndex(sh[0]) == UserIndex(shells[0])
      && gr[0]["shells"] == IntList([UserIndex(shells[0])])
      && forall k | k in Names(GrRequired) && k != "shells" :: k in gr[0] && gr[0][k] == shells[0][k]
  {
    TableNames();
  }

  // ---------------------------------------------------------------------------
  // Phases 2 and 3: resolution and coverage
  // ---------------------------------------------------------------------------

  function Strip(shell: Record): Record {
    shell - GroupKeys()
  }

  /** Every shell without its group parameters. */
  function StripAll(shells: seq<Record>): (r: seq<Record>)
    requires forall i | 0 <= i < |shells| :: HasUserIndex(shells[i])
    ensures SameUserIndices(r, shells)
  {
    var r := seq(|shells|, i requires 0 <= i < |shells| => Strip(shells[i]));
    forall i | 0 <= i < |shells| ensures HasUserIndex(r[i]) && UserIndex(r[i]) == UserIndex(shells[i]) {
      assert HasUserIndex(shells[i]);
      assert r[i] == shells[i] - GroupKeys();
      assert "user_index" !in GroupKeys();
      assert "user_index" in r[i];
    }
    r
  }

  /** groups_shells_consistency on values: the final shells and groups, or the first
      rule that fails. */
  function Reconcile(shells: seq<Record>, groups: seq<Record>): Result<(seq<Record>, seq<Record>)>
    requires ShellsReady(shells) && GroupsReady(groups)
  {
    match Defaulted(shells, groups)
    case Err(e) => Err(e)
    case Ok((sh, gr)) =>
      var refs := References(gr);
      match FirstUnresolved(refs, sh)
      case Some(ref) => Err(UnknownShellReference(ref.userIndex, ref.group))
      case None =>
        if forall i | 0 <= i < |sh| :: Referenced(refs, UserIndex(sh[i])) then
          Ok((StripAll(sh), gr))
        else Err(UnreferencedShells)
  }

  /** The shells after the references in refs have been visited: each shell a reference
      lands on has lost its group parameters. */
  function StrippedAfter(refs: seq<Reference>, shells: seq<Record>): (r: seq<Record>)
    requires forall i | 0 <= i < |shells| :: HasUserIndex(shells[i])
    ensures SameUserIndices(r, shells)
    decreases |refs|
  {
    if refs == [] then shells
    else
      var before := StrippedAfter(refs[..|refs| - 1], shells);
      match FirstPosition(shells, refs[|refs| - 1].userIndex)
      case None => before
      case Some(p) => before[p := Strip(before[p])]
  }

  lemma {:induction false} ReferencesStep(groups: seq<Record>, gi: nat)
    requires GroupsReady(groups) && gi < |groups|
    ensures References(groups[..gi + 1]) == References(groups[..gi]) + GroupReferences(groups[gi])
  {
    assert groups[..gi + 1][..gi] == groups[..gi];
  }

  /** The references of the first n groups come first among all references. */
  lemma {:induction false} ReferencesPrefix(groups: seq<Record>, n: nat)
    requires GroupsReady(groups) && n <= |groups|
    ensures References(groups[..n]) <= References(groups)
    decreases |groups|
  {
    if n < |groups| {
      var init := groups[..|groups| - 1];
      ReferencesPrefix(init, n);
      assert init[..n] == groups[..n];
    } else {
      assert groups[..n] == groups;
    }
  }

  /** Entry j of group gi's shell list is the reference at the matching position. */
  lemma ReferencesAt(groups: seq<Record>, gi: nat, j: nat)
    requires GroupsReady(groups) && gi < |groups|
    requires j < |groups[gi]["shells"].xs|
    ensures |References(groups[..gi])| + j < |References(groups)|
    ensures References(groups)[|References(groups[..gi])| + j]
         == Reference(groups[gi]["shells"].xs[j], GroupIndex(groups[gi]))
  {
    ReferencesStep(groups, gi);
    ReferencesPrefix(groups, gi + 1);
  }

  /** One advisory per group parameter still on the shell, in the model's key order. */
  function KeyWarnings(keys: seq<string>, shell: Record, u: int): seq<Warning>
    decreases |keys|
  {
    if keys == [] then []
    else
      var k := keys[|keys| - 1];
      KeyWarnings(keys[..|keys| - 1], shell, u) + (if k in shell then [RedundantGroupParameter(k, u)] else [])
  }
  lemma KeyWarningsStep(keys: seq<string>, k: nat, shell: Record, u: int)
    requires k < |keys|
    ensures KeyWarnings(keys[..k + 1], shell, u)
         == KeyWarnings(keys[..k], shell, u) + (if keys[k] in shell then [RedundantGroupParameter(keys[k], u)] else [])
  {
    assert keys[..k + 1][..k] == keys[..k];
  }

  /** The loop of inpconf.py:402-421 on one shell: every group key still on the shell is
      deleted from it, with an advisory naming the key and the shell's user index u. */
  method DiscardKeys(s: Record, u: int) returns (shell: Record, ws: seq<Warning>)
    ensures shell == Strip(s)
    ensures ws == KeyWarnings(GroupKeyOrder, s, u)
  {
    var keys := GroupKeyOrder;
    GroupKeyOrderDistinct();
    shell := s;
    ws := [];
    var k := 0;
    KeySetStep(keys, 0);
    while k < |keys|
      invariant 0 <= k <= |keys|
      invariant shell == s - KeySet(keys[..k])
      invariant ws == KeyWarnings(keys[..k], s, u)
    {
      var key := keys[k];
      DiscardStep(s, keys, k, u);
      if key in shell {
        shell := shell - {key};
        ws := ws + [RedundantGroupParameter(key, u)];
      }
      k := k + 1;
    }
    assert keys[..k] == keys;
    GroupKeyOrders();
  }

  lemma GroupKeyOrderDistinct()
    ensures Distinct(GroupKeyOrder)
  {
  }

  /** One key of the discard loop: it is on the shell so far exactly when it is on the
      original shell, and deleting it extends both the deletions and the advisories. */
  lemma DiscardStep(s: Record, keys: seq<string>, k: nat, u: int)
    requires Distinct(keys) && k < |keys|
    ensures var shell := s - KeySet(keys[..k]);
      && (keys[k] in shell <==> keys[k] in s)
      && (if keys[k] in shell then shell - {keys[k]} else shell) == s - KeySet(keys[..k + 1])
      && KeyWarnings(keys[..k + 1], s, u)
         == KeyWarnings(keys[..k], s, u) + (if keys[k] in s then [RedundantGroupParameter(keys[k], u)] else [])
  {
    KeySetStep(keys, k);
    KeyWarningsStep(keys, k, s, u);
    assert keys[k] !in KeySet(keys[..k]) by {
      assert forall j | 0 <= j < k :: keys[..k][j] == keys[j] != keys[k];
    }
    if keys[k] in s {
      MoveKey(s, KeySet(keys[..k]), keys[k]);
    } else {
      SkipKey(s, KeySet(keys[..k]), keys[k]);
    }
  }

  lemma AppendAssociates(a: seq<Warning>, b: seq<Warning>, c: seq<Warning>)
    ensures (a + b) + c == a + (b + c)
  {
  }

  /** The advisories emitted while the references in refs are visited. */
  function ResolutionWarnings(refs: seq<Reference>, shells: seq<Record>): seq<Warning>
    requires forall i | 0 <= i < |shells| :: HasUserIndex(shells[i])
    decreases |refs|
  {
    if refs == [] then []
    else
      var init := refs[..|refs| - 1];
      var u := refs[|refs| - 1].userIndex;
      var before := StrippedAfter(init, shells);
      ResolutionWarnings(init, shells) +
        match FirstPosition(shells, u)
        case None => []
        case Some(p) => KeyWarnings(GroupKeyOrder, before[p], u)
  }

  /** The advisories of a successful reconciliation. */
  function ReconcileWarnings(shells: seq<Record>, groups: seq<Record>): seq<Warning>
    requires ShellsReady(shells) && GroupsReady(groups)
  {
    match Defaulted(shells, groups)
    case Err(_) => []
    case Ok((sh, gr)) => ResolutionWarnings(References(gr), sh)
  }

  lemma {:induction false} StrippedAfterAt(refs: seq<Reference>, shells: seq<Record>, i: nat)
    requires ShellsReady(shells) && i < |shells|
    ensures StrippedAfter(refs, shells)[i]
         == if Referenced(refs, UserIndex(shells[i])) then Strip(shells[i]) else shells[i]
    decreases |refs|
  {
    if refs != [] {
      var init := refs[..|refs| - 1];
      var last := refs[|refs| - 1];
      StrippedAfterAt(init, shells, i);
      FirstPositionReady(shells, last.userIndex, i);
      ReferencedSnoc(refs, UserIndex(shells[i]));
      StripIdempotent(shells[i]);
    }
  }

  lemma ReferencedSnoc(refs: seq<Reference>, u: int)
    requires refs != []
    ensures Referenced(refs, u)
        <==> Referenced(refs[..|refs| - 1], u) || refs[|refs| - 1].userIndex == u
  {
    var init := refs[..|refs| - 1];
    if Referenced(init, u) {
      var k :| 0 <= k < |init| && init[k].userIndex == u;
      assert refs[k] == init[k];
    }
    if Referenced(refs, u) && refs[|refs| - 1].userIndex != u {
      var k :| 0 <= k < |refs| && refs[k].userIndex == u;
      assert init[k] == refs[k];
    }
  }

  /** Visiting one more reference, which lands on position p: that shell loses its group
      parameters, and the references so far still all resolve. */
  lemma ResolveState(refs: seq<Reference>, shells: seq<Record>, m: nat, p: nat)
    requires forall i | 0 <= i < |shells| :: HasUserIndex(shells[i])
    requires m < |refs| && FirstPosition(shells, refs[m].userIndex) == Some(p)
    ensures p < |StrippedAfter(refs[..m], shells)|
    ensures var before := StrippedAfter(refs[..m], shells);
            StrippedAfter(refs[..m + 1], shells) == before[p := Strip(before[p])]
    ensures AllResolve(refs[..m], shells) ==> AllResolve(refs[..m + 1], shells)
  {
    var pre := refs[..m + 1];
    assert pre[..m] == refs[..m];
    assert pre[m] == refs[m];
    if AllResolve(refs[..m], shells) {
      forall k | 0 <= k < m + 1 ensures FirstPosition(shells, pre[k].userIndex).Some? {
        if k < m {
          assert pre[k] == refs[..m][k];
        } else {
          assert k == m;
        }
      }
    }
  }

  /** Visiting one more reference, which lands on position p: the advisories for that
      shell are appended. */
  lemma ResolveWarnings(refs: seq<Reference>, shells: seq<Record>, m: nat, p: nat)
    requires forall i | 0 <= i < |shells| :: HasUserIndex(shells[i])
    requires m < |refs| && FirstPosition(shells, refs[m].userIndex) == Some(p)
    ensures p < |StrippedAfter(refs[..m], shells)|
    ensures ResolutionWarnings(refs[..m + 1], shells)
         == ResolutionWarnings(refs[..m], shells)
            + KeyWarnings(GroupKeyOrder, StrippedAfter(refs[..m], shells)[p], refs[m].userIndex)
  {
    var pre := refs[..m + 1];
    assert pre[..m] == refs[..m];
    assert pre[m] == refs[m];
  }

  /** The state after the first |inds| references have been visited: each resolved to the
      position recorded in inds, and shells is the shell list stripped so far. */
  predicate Progress(refs: seq<Reference>, sh0: seq<Record>, inds: seq<int>, shells: seq<Record>)
    requires forall i | 0 <= i < |sh0| :: HasUserIndex(sh0[i])
  {
    && |inds| <= |refs|
    && AllResolve(refs[..|inds|], sh0)
    && (forall k | 0 <= k < |inds| :: FirstPosition(sh0, refs[k].userIndex) == Some(inds[k]))
    && shells == StrippedAfter(refs[..|inds|], sh0)
  }

  lemma ProgressStart(refs: seq<Reference>, sh0: seq<Record>)
    requires forall i | 0 <= i < |sh0| :: HasUserIndex(sh0[i])
    ensures Progress(refs, sh0, [], sh0)
    ensures ResolutionWarnings(refs[..0], sh0) == []
  {
    assert refs[..0] == [];
  }

  /** Looking a user index up in the partly stripped shells finds the same position as
      in the original ones. */
  lemma ProgressLookup(refs: seq<Reference>, sh0: seq<Record>, inds: seq<int>, shells: seq<Record>, u: int)
    requires forall i | 0 <= i < |sh0| :: HasUserIndex(sh0[i])
    requires Progress(refs, sh0, inds, shells)
    ensures forall i | 0 <= i < |shells| :: HasUserIndex(shells[i])
    ensures FirstPosition(shells, u) == FirstPosition(sh0, u)
  {
    FirstPositionSame(shells, sh0, u);
  }

  /** The positions found so far, extended by the next reference's position. */
  lemma PositionsStep(refs: seq<Reference>, sh0: seq<Record>, inds: seq<int>, p: nat)
    requires forall i | 0 <= i < |sh0| :: HasUserIndex(sh0[i])
    requires |inds| < |refs|
    requires forall k | 0 <= k < |inds| :: FirstPosition(sh0, refs[k].userIndex) == Some(inds[k])
    requires FirstPosition(sh0, refs[|inds|].userIndex) == Some(p)
    ensures forall k | 0 <= k < |inds| + 1 :: FirstPosition(sh0, refs[k].userIndex) == Some((inds + [p])[k])
  {
    var next := inds + [p];
    forall k | 0 <= k < |next| ensures FirstPosition(sh0, refs[k].userIndex) == Some(next[k]) {
      if k < |inds| {
        assert next[k] == inds[k];
      } else {
        assert k == |inds| && next[k] == p;
      }
    }
  }

  /** Visiting the next reference when it resolves to position p. */
  lemma ProgressStep(refs: seq<Reference>, sh0: seq<Record>, inds: seq<int>, shells: seq<Record>, p: nat)
    requires forall i | 0 <= i < |sh0| :: HasUserIndex(sh0[i])
    requires Progress(refs, sh0, inds, shells) && |inds| < |refs|
    requires FirstPosition(sh0, refs[|inds|].userIndex) == Some(p)
    ensures p < |shells|
    ensures Progress(refs, sh0, inds + [p], shells[p := Strip(shells[p])])
    ensures ResolutionWarnings(refs[..|inds| + 1], sh0)
         == ResolutionWarnings(refs[..|inds|], sh0) + KeyWarnings(GroupKeyOrder, shells[p], refs[|inds|].userIndex)
  {
    ProgressStepState(refs, sh0, inds, shells, p);
    ProgressStepWarnings(refs, sh0, inds, shells, p);
  }

  /** One resolved reference as the method applies it: the position p is appended, the
      shell at p loses its group parameters and that shell's advisories follow the earlier
      ones. */
  lemma ProgressAdvance(refs: seq<Reference>, sh0: seq<Record>, inds: seq<int>, shells: seq<Record>, p: nat,
                        w0: seq<Warning>)
    requires forall i | 0 <= i < |sh0| :: HasUserIndex(sh0[i])
    requires Progress(refs, sh0, inds, shells) && |inds| < |refs|
    requires FirstPosition(sh0, refs[|inds|].userIndex) == Some(p)
    ensures p < |shells| && |inds + [p]| == |inds| + 1
    ensures Progress(refs, sh0, inds + [p], shells[p := Strip(shells[p])])
    ensures w0 + ResolutionWarnings(refs[..|inds|], sh0) + KeyWarnings(GroupKeyOrder, shells[p], refs[|inds|].userIndex)
         == w0 + ResolutionWarnings(refs[..|inds + [p]|], sh0)
  {
    ProgressStep(refs, sh0, inds, shells, p);
    assert |inds + [p]| == |inds| + 1;
    AppendAssociates(w0, ResolutionWarnings(refs[..|inds|], sh0),
                     KeyWarnings(GroupKeyOrder, shells[p], refs[|inds|].userIndex));
  }

  lemma ProgressStepState(refs: seq<Reference>, sh0: seq<Record>, inds: seq<int>, shells: seq<Record>, p: nat)
    requires forall i | 0 <= i < |sh0| :: HasUserIndex(sh0[i])
    requires Progress(refs, sh0, inds, shells) && |inds| < |refs|
    requires FirstPosition(sh0, refs[|inds|].userIndex) == Some(p)
    ensures p < |shells|
    ensures Progress(refs, sh0, inds + [p], shells[p := Strip(shells[p])])
  {
    var next := inds + [p];
    assert |next| == |inds| + 1;
    ResolveState(refs, sh0, |inds|, p);
    PositionsStep(refs, sh0, inds, p);
    ProgressIntro(refs, sh0, next, shells[p := Strip(shells[p])]);
  }

  lemma ProgressStepWarnings(refs: seq<Reference>, sh0: seq<Record>, inds: seq<int>, shells: seq<Record>, p: nat)
    requires forall i | 0 <= i < |sh0| :: HasUserIndex(sh0[i])
    requires Progress(refs, sh0, inds, shells) && |inds| < |refs|
    requires FirstPosition(sh0, refs[|inds|].userIndex) == Some(p)
    ensures p < |shells|
    ensures ResolutionWarnings(refs[..|inds| + 1], sh0)
         == ResolutionWarnings(refs[..|inds|], sh0) + KeyWarnings(GroupKeyOrder, shells[p], refs[|inds|].userIndex)
  {
    assert shells == StrippedAfter(refs[..|inds|], sh0);
    ResolveWarnings(refs, sh0, |inds|, p);
  }

  lemma ProgressIntro(refs: seq<Reference>, sh0: seq<Record>, inds: seq<int>, shells: seq<Record>)
    requires forall i | 0 <= i < |sh0| :: HasUserIndex(sh0[i])
    requires |inds| <= |refs|
    requires AllResolve(refs[..|inds|], sh0)
    requires forall k | 0 <= k < |inds| :: FirstPosition(sh0, refs[k].userIndex) == Some(inds[k])
    requires shells == StrippedAfter(refs[..|inds|], sh0)
    ensures Progress(refs, sh0, inds, shells)
  {
  }

  /** Visiting the next reference when it names no shell: it is the first unresolved one. */
  lemma ProgressStuck(refs: seq<Reference>, sh0: seq<Record>, inds: seq<int>, shells: seq<Record>)
    requires forall i | 0 <= i < |sh0| :: HasUserIndex(sh0[i])
    requires Progress(refs, sh0, inds, shells) && |inds| < |refs|
    requires FirstPosition(sh0, refs[|inds|].userIndex).None?
    ensures FirstUnresolved(refs, sh0) == Some(refs[|inds|])
  {
    FirstUnresolvedAt(refs, sh0, |inds|);
  }

  /** After every reference: all resolve, the positions cover the shells exactly when
      every shell is referenced, and then every shell has been stripped. */
  lemma ProgressDone(refs: seq<Reference>, sh0: seq<Record>, inds: seq<int>, shells: seq<Record>)
    requires ShellsReady(sh0)
    requires Progress(refs, sh0, inds, shells) && |inds| == |refs|
    ensures FirstUnresolved(refs, sh0).None?
    ensures Members(inds) == Members(Range(0, |sh0|))
        <==> forall i | 0 <= i < |sh0| :: Referenced(refs, UserIndex(sh0[i]))
    ensures (forall i | 0 <= i < |sh0| :: Referenced(refs, UserIndex(sh0[i]))) ==> shells == StripAll(sh0)
  {
    assert refs[..|inds|] == refs;
    CoverageCheck(refs, sh0, inds);
    if forall i | 0 <= i < |sh0| :: Referenced(refs, UserIndex(sh0[i])) {
      StrippedAfterAll(refs, sh0);
    }
  }

  /** After the implicit group, a reference that names no shell decides the outcome. */
  lemma ReconcileStuck(shells: seq<Record>, groups: seq<Record>, sh: seq<Record>, gr: seq<Record>)
    requires ShellsReady(shells) && GroupsReady(groups)
    requires Defaulted(shells, groups) == Ok((sh, gr))
    requires FirstUnresolved(References(gr), sh).Some?
    ensures var ref := FirstUnresolved(References(gr), sh).value;
            Reconcile(shells, groups) == Err(UnknownShellReference(ref.userIndex, ref.group))
  {
  }

  /** After every reference has been visited, the coverage of the positions decides the
      outcome, and a success is the stripped shells with the groups unchanged. */
  lemma ReconcileResolved(shells: seq<Record>, groups: seq<Record>, sh: seq<Record>, gr: seq<Record>,
                          inds: seq<int>, stripped: seq<Record>)
    requires ShellsReady(shells) && GroupsReady(groups)
    requires Defaulted(shells, groups) == Ok((sh, gr))
    requires |inds| == |References(gr)| && Progress(References(gr), sh, inds, stripped)
    ensures Members(inds) == Members(Range(0, |sh|)) ==> Reconcile(shells, groups) == Ok((stripped, gr))
    ensures Members(inds) != Members(Range(0, |sh|)) ==> Reconcile(shells, groups) == Err(UnreferencedShells)
    ensures ReconcileWarnings(shells, groups) == ResolutionWarnings(References(gr), sh)
  {
    ProgressDone(References(gr), sh, inds, stripped);
  }

  /** Once every shell has been referenced, every shell has been stripped. */
  lemma StrippedAfterAll(refs: seq<Reference>, shells: seq<Record>)
    requires ShellsReady(shells)
    requires forall i | 0 <= i < |shells| :: Referenced(refs, UserIndex(shells[i]))
    ensures StrippedAfter(refs, shells) == StripAll(shells)
  {
    forall i | 0 <= i < |shells| ensures StrippedAfter(refs, shells)[i] == StripAll(shells)[i] {
      StrippedAfterAt(refs, shells, i);
    }
  }

  /** The positions collected while resolving cover every shell exactly when every shell's
      user index is referenced. */
  lemma CoverageCheck(refs: seq<Reference>, shells: seq<Record>, positions: seq<int>)
    requires ShellsReady(shells) && |positions| == |refs|
    requires forall k | 0 <= k < |refs| :: FirstPosition(shells, refs[k].userIndex) == Some(positions[k])
    ensures Members(positions) == Members(Range(0, |shells|))
        <==> forall i | 0 <= i < |shells| :: Referenced(refs, UserIndex(shells[i]))
  {
    RangeMembers(|shells|);
    if forall i | 0 <= i < |shells| :: Referenced(refs, UserIndex(shells[i])) {
      CoverageComplete(refs, shells, positions);
      SameMembers(positions, Range(0, |shells|));
    } else {
      var i :| 0 <= i < |shells| && !Referenced(refs, UserIndex(shells[i]));
      CoverageMissing(refs, shells, positions, i);
    }
  }

  lemma CoverageMissing(refs: seq<Reference>, shells: seq<Record>, positions: seq<int>, i: nat)
    requires (forall j | 0 <= j < |shells| :: HasUserIndex(shells[j])) && |positions| == |refs|
    requires forall k | 0 <= k < |refs| :: FirstPosition(shells, refs[k].userIndex) == Some(positions[k])
    requires i < |shells| && !Referenced(refs, UserIndex(shells[i]))
    ensures Members(positions) != Members(Range(0, |shells|))
  {
    assert i !in positions;
    RangeMembers(|shells|);
    NotSameMembers(positions, Range(0, |shells|), i);
  }

  /** The elements of a list, as the set Python's set(...) builds. */
  function Members(a: seq<int>): set<int> {
    set k | k in a
  }

  lemma NotSameMembers(a: seq<int>, b: seq<int>, x: int)
    requires x !in a && x in b
    ensures Members(a) != Members(b)
  {
    assert x in Members(b);
  }

  lemma SameMembers(a: seq<int>, b: seq<int>)
    requires forall i :: i in a <==> i in b
    ensures Members(a) == Members(b)
  {
    forall x | x in Members(a) ensures x in Members(b) {
      assert x in a;
    }
    forall x | x in Members(b) ensures x in Members(a) {
      assert x in b;
    }
  }

  lemma RangeMembers(n: nat)
    ensures forall i :: i in Range(0, n) <==> 0 <= i < n
  {
    forall i | 0 <= i < n ensures i in Range(0, n) {
      assert Range(0, n)[i] == i;
    }
  }

  lemma CoverageComplete(refs: seq<Reference>, shells: seq<Record>, positions: seq<int>)
    requires ShellsReady(shells) && |positions| == |refs|
    requires forall k | 0 <= k < |refs| :: FirstPosition(shells, refs[k].userIndex) == Some(positions[k])
    requires forall i | 0 <= i < |shells| :: Referenced(refs, UserIndex(shells[i]))
    ensures forall i :: i in positions <==> i in Range(0, |shells|)
  {
    RangeMembers(|shells|);
    forall i | 0 <= i < |shells| ensures i in positions {
      assert Referenced(refs, UserIndex(shells[i]));
      var k :| 0 <= k < |refs| && refs[k].userIndex == UserIndex(shells[i]);
      FirstPositionReady(shells, refs[k].userIndex, i);
      assert positions[k] == i;
    }
    forall i | i in positions ensures 0 <= i < |shells| {
      var k :| 0 <= k < |positions| && positions[k] == i;
    }
  }

  lemma StripIdempotent(shell: Record)
    ensures Strip(Strip(shell)) == Strip(shell)
  {
  }

  // ---------------------------------------------------------------------------
  // What the reconciliation promises
  // ---------------------------------------------------------------------------

  function ReferencedIndices(refs: seq<Reference>): set<int> {
    set k | 0 <= k < |refs| :: refs[k].userIndex
  }

  function UserIndices(shells: seq<Record>): set<int>
    requires forall i | 0 <= i < |shells| :: HasUserIndex(shells[i])
  {
    set i | 0 <= i < |shells| :: UserIndex(shells[i])
  }

  /** The validated model: shells in ascending user-index order without group parameters,
      every group lists shells, and the user indices the groups reference are exactly the
      user indices of the shells (no dangling reference, no shell outside every group). */
  predicate FinalModel(shells: seq<Record>, groups: seq<Record>) {
    && ShellsReady(shells)
    && GroupsReady(groups)
    && (forall i | 0 <= i < |shells| :: shells[i].Keys !! GroupKeys())
    && ReferencedIndices(References(groups)) == UserIndices(shells)
  }

  /** A successful reconciliation yields the validated model, and each shell keeps every
      field that is not a group parameter (ion_list, lshell, tmatrix, user_index). */
  lemma ReconcileModel(shells: seq<Record>, groups: seq<Record>)
    requires ShellsReady(shells) && GroupsReady(groups)
    requires Reconcile(shells, groups).Ok?
    ensures var (sh, gr) := Reconcile(shells, groups).value;
      && FinalModel(sh, gr)
      && |sh| == |shells|
      && forall i | 0 <= i < |sh| :: KeepsOtherFields(sh[i], shells[i])
  {
    var (d, gr) := Defaulted(shells, groups).value;
    var refs := References(gr);
    var sh := StripAll(d);
    assert Reconcile(shells, groups).value == (sh, gr);
    DefaultedKeepsOtherFields(shells, groups);
    StripAllModel(d);
    Coverage(refs, d);
  }

  /** The shells after defaulting keep every field that is not a group parameter, and
      stripping them keeps those fields too and leaves no group parameter. */
  lemma DefaultedKeepsOtherFields(shells: seq<Record>, groups: seq<Record>)
    requires ShellsReady(shells) && GroupsReady(groups)
    requires Defaulted(shells, groups).Ok?
    ensures var d := Defaulted(shells, groups).value.0;
      forall i | 0 <= i < |d| :: KeepsOtherFields(StripAll(d)[i], shells[i])
  {
    var d := Defaulted(shells, groups).value.0;
    forall i | 0 <= i < |d| ensures KeepsOtherFields(StripAll(d)[i], shells[i]) {
      assert StripAll(d)[i] == Strip(d[i]);
      if |groups| == 0 {
        assert d[i] == Strip(shells[0]);
      }
    }
  }

  lemma StripAllModel(shells: seq<Record>)
    requires ShellsReady(shells)
    ensures ShellsReady(StripAll(shells))
    ensures forall i | 0 <= i < |shells| :: StripAll(shells)[i].Keys !! GroupKeys()
  {
  }

  /** When every reference resolves and every shell is referenced, the referenced user
      indices are exactly the shells' user indices. */
  lemma Coverage(refs: seq<Reference>, shells: seq<Record>)
    requires ShellsReady(shells)
    requires AllResolve(refs, shells)
    requires forall i | 0 <= i < |shells| :: Referenced(refs, UserIndex(shells[i]))
    ensures ReferencedIndices(refs) == UserIndices(StripAll(shells))
  {
    var sh := StripAll(shells);
    forall u | u in ReferencedIndices(refs) ensures u in UserIndices(sh) {
      var k :| 0 <= k < |refs| && refs[k].userIndex == u;
      var p := FirstPosition(shells, u).value;
      assert UserIndex(sh[p]) == u;
    }
    forall u | u in UserIndices(sh) ensures u in ReferencedIndices(refs) {
      var i :| 0 <= i < |sh| && UserIndex(sh[i]) == u;
      assert Referenced(refs, UserIndex(shells[i]));
    }
  }

  /** after keeps every field of before that is not a group parameter, unchanged. */
  ghost predicate KeepsOtherFields(after: Record, before: Record) {
    forall k | k !in GroupKeys() :: (k in after <==> k in before) && (k in after ==> after[k] == before[k])
  }
}
