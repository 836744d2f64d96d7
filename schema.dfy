/** The parameter tables of ConfigParameters.__init__ (inpconf.py:54-69) and the
    table-driven extraction parse_parameter_set (inpconf.py:171-194). */
module Schema {
  import opened Results
  import opened Text
  import opened ValueParsers

  /** A converted parameter value. float() is not modelled, so a real keeps its token. */
  datatype Value =
    | IonList(ions: seq<int>)
    | Int(i: int)
    | IntList(xs: seq<int>)
    | Real(token: string)
    | Bool(b: bool)
    | TMatrix(m: Matrix)

  /** The conversion function of a table entry. */
  datatype Converter = IonListOf | IntOf | IntListOf | RealOf | LogicalOf | TMatrixOf(isReal: bool)

  /** Conf-file keyword to (internal name, conversion function). */
  type Schema = map<string, (string, Converter)>

  /** The options of one section, by their (lower-cased) names. */
  type Options = map<string, string>

  /** A shell or group record: internal name to value. */
  type Record = map<string, Value>

  const ShRequired: Schema :=
    map["ions" := ("ion_list", IonListOf), "lshell" := ("lshell", IntOf)]
  const ShOptional: Schema :=
    map["rtransform" := ("tmatrix", TMatrixOf(true)), "ctransform" := ("tmatrix", TMatrixOf(false))]
  const GrRequired: Schema :=
    map["shells" := ("shells", IntListOf), "emin" := ("emin", RealOf), "emax" := ("emax", RealOf)]
  const GrOptional: Schema :=
    map["normalize" := ("normalize", LogicalOf), "normion" := ("normion", LogicalOf)]

  /** Applies a table's conversion function to a raw option string. */
  function Convert(c: Converter, raw: string, floatOk: string -> bool): Result<Value> {
    match c
    case IonListOf =>
      (match ParseIonList(raw) case Ok(ions) => Ok(IonList(ions)) case Err(e) => Err(e))
    case IntOf =>
      (match ParseInt(raw) case Some(i) => Ok(Int(i)) case None => Err(NotAnInteger(raw)))
    case IntListOf =>
      (match ParseInts(Words(raw)) case Some(xs) => Ok(IntList(xs)) case None => Err(NotAnInteger(raw)))
    case RealOf =>
      if floatOk(raw) then Ok(Real(raw)) else Err(NotAReal(raw))
    case LogicalOf =>
      (match ParseLogical(raw) case Ok(b) => Ok(Bool(b)) case Err(e) => Err(e))
    case TMatrixOf(isReal) =>
      (match ParseTMatrix(raw, isReal, floatOk) case Ok(m) => Ok(TMatrix(m)) case Err(e) => Err(e))
  }

  /** Every internal name of a table. */
  function Names(schema: Schema): set<string> {
    set p | p in schema :: schema[p].0
  }

  lemma NamesUnion(a: Schema, b: Schema)
    requires a.Keys !! b.Keys
    ensures Names(a + b) == Names(a) + Names(b)
  {
    forall k | k in Names(a) ensures k in Names(a + b) {
      var p :| p in a && a[p].0 == k;
      assert (a + b)[p] == a[p];
    }
    forall k | k in Names(b) ensures k in Names(a + b) {
      var p :| p in b && b[p].0 == k;
      assert (a + b)[p] == b[p];
    }
  }

  lemma PresentNamesWithin(options: Options, schema: Schema)
    ensures PresentNames(options, schema) <= Names(schema)
  {
  }

  /** A record {tag: v} updated with two records that do not hold the tag keeps v under
      the tag, and without the tag is the union of the updates. */
  lemma DropTag(tag: string, v: Value, p1: Record, p2: Record)
    requires tag !in p1 && tag !in p2
    ensures var g := map[tag := v] + p1 + p2; tag in g && g[tag] == v && g - {tag} == p1 + p2
  {
    var g := map[tag := v] + p1 + p2;
    assert (g - {tag}).Keys == (p1 + p2).Keys;
  }

  /** A record {tag: v} updated with the extractions of two tables: without the tag it is
      the extraction of the union of the tables. */
  lemma ParsedTagged(options: Options, a: Schema, b: Schema, floatOk: string -> bool,
                     tag: string, v: Value, p1: Record, p2: Record)
    requires a.Keys !! b.Keys && Names(a) !! Names(b) && tag !in Names(a) && tag !in Names(b)
    requires ParsedFrom(options, a, floatOk, p1) && ParsedFrom(options, b, floatOk, p2)
    ensures var g := map[tag := v] + p1 + p2;
      tag in g && g[tag] == v && ParsedFrom(options, a + b, floatOk, g - {tag})
  {
    ParsedFromUnion(options, a, b, floatOk, p1, p2);
    PresentNamesWithin(options, a);
    PresentNamesWithin(options, b);
    DropTag(tag, v, p1, p2);
  }

  /** Extractions with four tables that share neither keywords nor internal names. */
  lemma ParsedFromUnion4(options: Options, a: Schema, b: Schema, c: Schema, d: Schema,
                         floatOk: string -> bool, p1: Record, p2: Record, p3: Record, p4: Record)
    requires a.Keys !! b.Keys && (a + b).Keys !! c.Keys && (a + b + c).Keys !! d.Keys
    requires Names(a) !! Names(b) && Names(a + b) !! Names(c) && Names(a + b + c) !! Names(d)
    requires ParsedFrom(options, a, floatOk, p1) && ParsedFrom(options, b, floatOk, p2)
    requires ParsedFrom(options, c, floatOk, p3) && ParsedFrom(options, d, floatOk, p4)
    ensures ParsedFrom(options, a + b + c + d, floatOk, p1 + p2 + p3 + p4)
  {
    ParsedFromUnion(options, a, b, floatOk, p1, p2);
    ParsedFromUnion(options, a + b, c, floatOk, p1 + p2, p3);
    ParsedFromUnion(options, a + b + c, d, floatOk, p1 + p2 + p3, p4);
  }


  lemma DropTag4(tag: string, v: Value, p1: Record, p2: Record, p3: Record, p4: Record)
    requires tag !in p1 && tag !in p2 && tag !in p3 && tag !in p4
    ensures var g := map[tag := v] + p1 + p2 + p3 + p4;
      tag in g && g[tag] == v && g - {tag} == p1 + p2 + p3 + p4
  {
    var g := map[tag := v] + p1 + p2 + p3 + p4;
    assert (g - {tag}).Keys == (p1 + p2 + p3 + p4).Keys;
  }

  /** A record {tag: v} updated with the extractions of four tables: without the tag it is
      the extraction of the union of the tables. */
  lemma ParsedTagged4(options: Options, a: Schema, b: Schema, c: Schema, d: Schema,
                      floatOk: string -> bool, tag: string, v: Value,
                      p1: Record, p2: Record, p3: Record, p4: Record)
    requires a.Keys !! b.Keys && (a + b).Keys !! c.Keys && (a + b + c).Keys !! d.Keys
    requires Names(a) !! Names(b) && Names(a + b) !! Names(c) && Names(a + b + c) !! Names(d)
    requires tag !in Names(a) && tag !in Names(b) && tag !in Names(c) && tag !in Names(d)
    requires ParsedFrom(options, a, floatOk, p1) && ParsedFrom(options, b, floatOk, p2)
    requires ParsedFrom(options, c, floatOk, p3) && ParsedFrom(options, d, floatOk, p4)
    ensures var g := map[tag := v] + p1 + p2 + p3 + p4;
      tag in g && g[tag] == v && ParsedFrom(options, a + b + c + d, floatOk, g - {tag})
  {
    ParsedFromUnion4(options, a, b, c, d, floatOk, p1, p2, p3, p4);
    PresentNamesWithin(options, a);
    PresentNamesWithin(options, b);
    PresentNamesWithin(options, c);
    PresentNamesWithin(options, d);
    DropTag4(tag, v, p1, p2, p3, p4);
  }

  /** The conf-file keywords of the four tables. */
  lemma TableKeys()
    ensures ShRequired.Keys == {"ions", "lshell"}
    ensures ShOptional.Keys == {"rtransform", "ctransform"}
    ensures GrRequired.Keys == {"shells", "emin", "emax"}
    ensures GrOptional.Keys == {"normalize", "normion"}
  {
  }

  /** The internal names of the four tables. */
  lemma TableNames()
    ensures Names(ShRequired) == {"ion_list", "lshell"}
    ensures Names(ShOptional) == {"tmatrix"}
    ensures Names(GrRequired) == {"shells", "emin", "emax"}
    ensures Names(GrOptional) == {"normalize", "normion"}
  {
    assert ShRequired["ions"].0 == "ion_list" && ShRequired["lshell"].0 == "lshell";
    assert ShOptional["rtransform"].0 == "tmatrix";
    assert GrRequired["shells"].0 == "shells" && GrRequired["emin"].0 == "emin" && GrRequired["emax"].0 == "emax";
    assert GrOptional["normalize"].0 == "normalize" && GrOptional["normion"].0 == "normion";
  }

  /** The internal names of the table's keywords that the section sets. */
  function PresentNames(options: Options, schema: Schema): set<string> {
    set p | p in schema && p in options :: schema[p].0
  }

  /** No two keywords of the table share an internal name. */
  predicate InjectiveNames(schema: Schema) {
    forall p, q | p in schema && q in schema && p != q :: schema[p].0 != schema[q].0
  }

  /** m holds one entry per internal name of a keyword the section sets, and that entry
      is the keyword's conversion of its raw string. When two keywords share an internal
      name (rtransform and ctransform) either conversion may be the one kept, since the
      order in which a dict's keys are visited is not specified. */
  predicate ParsedFrom(options: Options, schema: Schema, floatOk: string -> bool, m: Record) {
    && m.Keys == PresentNames(options, schema)
    && forall k | k in m :: ConvertedBy(options, schema, floatOk, k, m[k])
  }

  /** v is the conversion of the raw string of some keyword the section sets whose
      internal name is k. */
  predicate ConvertedBy(options: Options, schema: Schema, floatOk: string -> bool, k: string, v: Value) {
    exists p | p in schema && p in options :: schema[p].0 == k && Convert(schema[p].1, options[p], floatOk) == Ok(v)
  }

  /** parse_parameter_set succeeds exactly when no required keyword is missing and every
      keyword the section sets converts. */
  predicate Succeeds(options: Options, schema: Schema, exception: bool, floatOk: string -> bool) {
    && (exception ==> schema.Keys <= options.Keys)
    && forall p {:trigger Convert(schema[p].1, options[p], floatOk)} | p in schema && p in options ::
         Convert(schema[p].1, options[p], floatOk).Ok?
  }

  /** The errors parse_parameter_set can report: a missing required keyword, or the
      failure of one keyword's conversion. Which one is reported first is not specified. */
  predicate PossibleError(options: Options, section: string, schema: Schema, exception: bool,
                          floatOk: string -> bool, e: Error) {
    || (exception && exists p | p in schema && p !in options :: e == MissingParameter(p, section))
    || (exists p | p in schema && p in options :: Convert(schema[p].1, options[p], floatOk) == Err(e))
  }

  /** parse_parameter_set: visits the table's keywords in an unspecified order, converts
      each one the section sets, and fails on a missing keyword when exception is set. */
  method ParseParameterSet(options: Options, section: string, schema: Schema, exception: bool,
                           floatOk: string -> bool)
    returns (r: Result<Record>)
    ensures r.Ok? <==> Succeeds(options, schema, exception, floatOk)
    ensures r.Ok? ==> ParsedFrom(options, schema, floatOk, r.value)
    ensures r.Err? ==> PossibleError(options, section, schema, exception, floatOk, r.error)
  {
    var parsed: Record := map[];
    var todo := schema.Keys;
    while todo != {}
      invariant todo <= schema.Keys
      invariant Succeeds(options, schema - todo, exception, floatOk)
      invariant ParsedFrom(options, schema - todo, floatOk, parsed)
      decreases todo
    {
      var par :| par in todo;
      ghost var before := todo;
      todo := todo - {par};
      if par !in options {
        if exception {
          return Err(MissingParameter(par, section));
        }
        SkipStep(options, schema, before, par, exception, floatOk, parsed);
      } else {
        var entry := schema[par];
        var v := Convert(entry.1, options[par], floatOk);
        if v.Err? {
          return Err(v.error);
        }
        ConvertStep(options, schema, before, par, exception, floatOk, parsed, v.value);
        parsed := parsed[entry.0 := v.value];
      }
    }
    assert schema - todo == schema;
    return Ok(parsed);
  }

  /** A keyword the section does not set, with exception unset, changes nothing. */
  lemma SkipStep(options: Options, schema: Schema, todo: set<string>, par: string, exception: bool,
                 floatOk: string -> bool, parsed: Record)
    requires par in todo && todo <= schema.Keys && par !in options && !exception
    requires Succeeds(options, schema - todo, exception, floatOk)
    requires ParsedFrom(options, schema - todo, floatOk, parsed)
    ensures Succeeds(options, schema - (todo - {par}), exception, floatOk)
    ensures ParsedFrom(options, schema - (todo - {par}), floatOk, parsed)
  {
    var done := schema - todo;
    assert schema - (todo - {par}) == done[par := schema[par]];
    assert PresentNames(options, schema - (todo - {par})) == PresentNames(options, done);
  }

  /** A keyword the section sets and that converts adds its value under its internal name. */
  lemma ConvertStep(options: Options, schema: Schema, todo: set<string>, par: string, exception: bool,
                    floatOk: string -> bool, parsed: Record, v: Value)
    requires par in todo && todo <= schema.Keys && par in options
    requires Convert(schema[par].1, options[par], floatOk) == Ok(v)
    requires Succeeds(options, schema - todo, exception, floatOk)
    requires ParsedFrom(options, schema - todo, floatOk, parsed)
    ensures Succeeds(options, schema - (todo - {par}), exception, floatOk)
    ensures ParsedFrom(options, schema - (todo - {par}), floatOk, parsed[schema[par].0 := v])
  {
    var done := schema - todo;
    var next := schema - (todo - {par});
    assert next == done[par := schema[par]];
    ParsedAdd(options, done, par, schema[par], exception, floatOk, parsed, v);
  }

  lemma ParsedAdd(options: Options, done: Schema, par: string, entry: (string, Converter), exception: bool,
                  floatOk: string -> bool, parsed: Record, v: Value)
    requires par !in done && par in options
    requires Convert(entry.1, options[par], floatOk) == Ok(v)
    requires Succeeds(options, done, exception, floatOk)
    requires ParsedFrom(options, done, floatOk, parsed)
    ensures Succeeds(options, done[par := entry], exception, floatOk)
    ensures ParsedFrom(options, done[par := entry], floatOk, parsed[entry.0 := v])
  {
    var next := done[par := entry];
    var m := parsed[entry.0 := v];
    PresentNamesAdd(options, done, par, entry);
    forall k | k in m ensures ConvertedBy(options, next, floatOk, k, m[k]) {
      if k == entry.0 {
        assert next[par] == entry;
      } else {
        var p :| p in done && p in options && done[p].0 == k && Convert(done[p].1, options[p], floatOk) == Ok(parsed[k]);
        assert next[p] == done[p];
      }
    }
  }

  lemma PresentNamesAdd(options: Options, done: Schema, par: string, entry: (string, Converter))
    requires par !in done && par in options
    ensures PresentNames(options, done[par := entry]) == PresentNames(options, done) + {entry.0}
  {
    var next := done[par := entry];
    forall n | n in PresentNames(options, next) ensures n in PresentNames(options, done) + {entry.0} {
      var p :| p in next && p in options && next[p].0 == n;
      if p != par {
        assert done[p].0 == n;
      }
    }
    forall n | n in PresentNames(options, done) ensures n in PresentNames(options, next) {
      var p :| p in done && p in options && done[p].0 == n;
      assert next[p].0 == n;
    }
    assert next[par].0 == entry.0;
  }

  /** A keyword the section sets whose internal name no other keyword shares leaves
      its own conversion under that name. */
  lemma ParsedEntry(options: Options, schema: Schema, floatOk: string -> bool, m: Record, key: string)
    requires key in schema && key in options
    requires forall p | p in schema && p != key :: schema[p].0 != schema[key].0
    requires ParsedFrom(options, schema, floatOk, m)
    ensures schema[key].0 in m && Convert(schema[key].1, options[key], floatOk) == Ok(m[schema[key].0])
  {
    var n := schema[key].0;
    assert n in PresentNames(options, schema);
    var p :| p in schema && p in options && schema[p].0 == n && Convert(schema[p].1, options[p], floatOk) == Ok(m[n]);
    assert p == key;
  }

  /** The same for two tables. */
  lemma SoleName2(a: Schema, b: Schema, key: string)
    requires key in a
    requires a.Keys !! b.Keys && Names(a) !! Names(b)
    requires forall p | p in a && p != key :: a[p].0 != a[key].0
    ensures key in a + b && (a + b)[key] == a[key]
    ensures forall p | p in a + b && p != key :: (a + b)[p].0 != a[key].0
  {
    assert a[key].0 in Names(a);
    forall p | p in a + b && p != key ensures (a + b)[p].0 != a[key].0 {
      if p in b {
        assert b[p].0 in Names(b);
      }
    }
  }

  /** When four tables share no keyword and no internal name, a keyword of the first
      whose internal name no other keyword of it uses keeps its entry, and its name
      alone, in their union. */
  lemma SoleName(a: Schema, b: Schema, c: Schema, d: Schema, key: string)
    requires key in a
    requires a.Keys !! b.Keys && (a + b).Keys !! c.Keys && (a + b + c).Keys !! d.Keys
    requires Names(a) !! Names(b) && Names(a + b) !! Names(c) && Names(a + b + c) !! Names(d)
    requires forall p | p in a && p != key :: a[p].0 != a[key].0
    ensures key in a + b + c + d && (a + b + c + d)[key] == a[key]
    ensures forall p | p in a + b + c + d && p != key :: (a + b + c + d)[p].0 != a[key].0
  {
    var n := a[key].0;
    assert n in Names(a);
    assert (a + b)[key] == a[key] && n in Names(a + b);
    assert (a + b + c)[key] == a[key] && n in Names(a + b + c);
    forall p | p in a + b + c + d && p != key ensures (a + b + c + d)[p].0 != n {
      if p in d {
        assert d[p].0 in Names(d);
      } else if p in c {
        assert c[p].0 in Names(c);
      } else if p in b {
        assert b[p].0 in Names(b);
      }
    }
  }

  /** With distinct internal names, a successful extraction has only one possible result. */
  lemma ParsedFromUnique(options: Options, schema: Schema, floatOk: string -> bool, m1: Record, m2: Record)
    requires InjectiveNames(schema)
    requires ParsedFrom(options, schema, floatOk, m1) && ParsedFrom(options, schema, floatOk, m2)
    ensures m1 == m2
  {
    forall k | k in m1 ensures m1[k] == m2[k] {
      var p :| p in schema && p in options && schema[p].0 == k
               && Convert(schema[p].1, options[p], floatOk) == Ok(m1[k]);
      var q :| q in schema && q in options && schema[q].0 == k
               && Convert(schema[q].1, options[q], floatOk) == Ok(m2[k]);
      assert p == q;
    }
  }

  /** Extractions with two tables that share neither keywords nor internal names combine
      into the extraction with the union of the tables. */
  lemma ParsedFromUnion(options: Options, s1: Schema, s2: Schema, floatOk: string -> bool, m1: Record, m2: Record)
    requires s1.Keys !! s2.Keys && Names(s1) !! Names(s2)
    requires ParsedFrom(options, s1, floatOk, m1) && ParsedFrom(options, s2, floatOk, m2)
    ensures ParsedFrom(options, s1 + s2, floatOk, m1 + m2)
  {
    var s := s1 + s2;
    var m := m1 + m2;
    assert PresentNames(options, s) == PresentNames(options, s1) + PresentNames(options, s2) by {
      forall k | k in PresentNames(options, s) ensures k in PresentNames(options, s1) + PresentNames(options, s2) {
        var p :| p in s && p in options && s[p].0 == k;
        if p in s2 { assert k in PresentNames(options, s2); } else { assert k in PresentNames(options, s1); }
      }
      forall k | k in PresentNames(options, s1) ensures k in PresentNames(options, s) {
        var p :| p in s1 && p in options && s1[p].0 == k;
        assert p !in s2 && s[p] == s1[p];
      }
      forall k | k in PresentNames(options, s2) ensures k in PresentNames(options, s) {
        var p :| p in s2 && p in options && s2[p].0 == k;
        assert s[p] == s2[p];
      }
    }
    forall k | k in m ensures exists p | p in s && p in options ::
        s[p].0 == k && Convert(s[p].1, options[p], floatOk) == Ok(m[k]) {
      if k in m2 {
        var p :| p in s2 && p in options && s2[p].0 == k && Convert(s2[p].1, options[p], floatOk) == Ok(m2[k]);
        assert s[p] == s2[p];
      } else {
        var p :| p in s1 && p in options && s1[p].0 == k && Convert(s1[p].1, options[p], floatOk) == Ok(m1[k]);
        assert p !in s2 && s[p] == s1[p];
      }
    }
  }
}
