/** The configuration document as the reader sees it, and the section-name patterns of
    parse_shells and parse_groups (inpconf.py:208-231, 294-311). */
module Sections {
  import opened Results
  import opened Text
  import opened Sorting
  import opened Schema

  /** One [section] of the document with its options. */
  datatype Section = Section(name: string, options: Options)

  /** The sections in the order of the file, as cp.sections() lists them. */
  type Document = seq<Section>

  /** ConfigParser merges repeated headers into one section, so the sections of a parsed
      document have distinct names. */
  predicate UniqueNames(doc: Document) {
    forall i, j | 0 <= i < j < |doc| :: doc[i].name != doc[j].name
  }

  /** cp.get(section, ...): the options of the section with that name. Section names are
      unique in a parsed document; the reader only asks for names the document lists. */
  function OptionsOf(doc: Document, name: string): (o: Options)
    ensures forall i | 0 <= i < |doc| && doc[i].name == name ::
              (forall j | 0 <= j < i :: doc[j].name != name) ==> o == doc[i].options
  {
    if doc == [] then map[]
    else if doc[0].name == name then doc[0].options
    else OptionsOf(doc[1..], name)
  }

  /** In a parsed document, a section's name gives its options. */
  lemma OptionsOfUnique(doc: Document, i: nat)
    requires UniqueNames(doc) && i < |doc|
    ensures OptionsOf(doc, doc[i].name) == doc[i].options
  {
  }

  /** name begins with word, letters compared as re.IGNORECASE does. */
  predicate HasPrefixIgnoringCase(name: string, word: string) {
    |word| <= |name| && forall i | 0 <= i < |word| :: LowerAscii(name[i]) == word[i]
  }

  /** re.match('<word> +.*', name, re.IGNORECASE): the looser test that a section is a
      shell (or group) section at all. */
  predicate IsSectionOf(name: string, word: string) {
    HasPrefixIgnoringCase(name, word) && |word| < |name| && name[|word|] == ' '
  }

  /** Number of leading blanks (the ' +' of the patterns). */
  function BlankRunLength(s: string): (n: nat)
    ensures n <= |s|
    ensures forall i | 0 <= i < n :: s[i] == ' '
    ensures n < |s| ==> s[n] != ' '
  {
    if s == [] || s[0] != ' ' then 0 else 1 + BlankRunLength(s[1..])
  }

  function Blanks(k: nat): string {
    seq(k, _ => ' ')
  }

  /** int(re.match('<word> +([0-9]*)$', name, re.IGNORECASE).groups()[0]): None when the
      pattern does not match (AttributeError) or the digit group is empty (ValueError).
      Section names never hold a newline, so '$' is the end of the name. */
  function SectionIndex(name: string, word: string): (r: Option<nat>)
    ensures r.Some? ==> IsSectionOf(name, word)
  {
    if !IsSectionOf(name, word) then None
    else
      var rest := name[|word|..];
      var digits := rest[BlankRunLength(rest)..];
      if digits != [] && AllDigits(digits) then Some(DecimalValue(digits)) else None
  }

  /** name is word (in any letter case), then k >= 1 blanks, then a non-empty run of
      decimal digits that ends the name. */
  predicate IndexSpelling(name: string, word: string, k: nat) {
    && HasPrefixIgnoringCase(name, word)
    && k >= 1 && |word| + k < |name|
    && (forall i | |word| <= i < |word| + k :: name[i] == ' ')
    && AllDigits(name[|word| + k..])
  }

  /** The index pattern reads n exactly from word, blanks and digits whose value is n,
      whatever leading zeros the digits carry. */
  lemma SectionIndexSpelled(name: string, word: string, n: nat)
    ensures SectionIndex(name, word) == Some(n) <==>
            exists k: nat :: IndexSpelling(name, word, k) && DecimalValue(name[|word| + k..]) == n
  {
    if SectionIndex(name, word) == Some(n) {
      var k := SpellingOfIndex(name, word);
    }
    if exists k: nat :: IndexSpelling(name, word, k) && DecimalValue(name[|word| + k..]) == n {
      var k: nat :| IndexSpelling(name, word, k) && DecimalValue(name[|word| + k..]) == n;
      IndexOfSpelling(name, word, k);
    }
  }

  lemma SpellingOfIndex(name: string, word: string) returns (k: nat)
    requires SectionIndex(name, word).Some?
    ensures IndexSpelling(name, word, k)
    ensures SectionIndex(name, word) == Some(DecimalValue(name[|word| + k..]))
  {
    var rest := name[|word|..];
    k := BlankRunLength(rest);
    assert rest[0] == name[|word|] == ' ';
    assert rest[k..] == name[|word| + k..];
    forall i | |word| <= i < |word| + k ensures name[i] == ' ' {
      assert name[i] == rest[i - |word|];
    }
  }

  lemma IndexOfSpelling(name: string, word: string, k: nat)
    requires IndexSpelling(name, word, k)
    ensures SectionIndex(name, word) == Some(DecimalValue(name[|word| + k..]))
  {
    var rest := name[|word|..];
    assert rest[k] == name[|word| + k];
    BlankRunExact(rest, k);
    assert rest[k..] == name[|word| + k..];
  }

  /** The index pattern fails exactly on names that are not word, blanks and digits. */
  lemma SectionIndexNone(name: string, word: string)
    ensures SectionIndex(name, word).None? <==> forall k: nat :: !IndexSpelling(name, word, k)
  {
    if SectionIndex(name, word).Some? {
      SectionIndexSpelled(name, word, SectionIndex(name, word).value);
    }
    if exists k: nat :: IndexSpelling(name, word, k) {
      var k: nat :| IndexSpelling(name, word, k);
      SectionIndexSpelled(name, word, DecimalValue(name[|word| + k..]));
    }
  }

  lemma {:induction false} BlankRunExact(s: string, k: nat)
    requires k < |s| && Text.IsDigit(s[k])
    requires forall i | 0 <= i < k :: s[i] == ' '
    ensures BlankRunLength(s) == k
  {
    if k > 0 {
      BlankRunExact(s[1..], k - 1);
    }
  }

  /** A section named word, one or more blanks and the decimal spelling of n (in any
      letter case) carries the index n. */
  lemma SectionIndexOfName(spelled: string, word: string, k: nat, n: nat)
    requires |spelled| == |word| && forall i | 0 <= i < |word| :: LowerAscii(spelled[i]) == word[i]
    requires k >= 1
    ensures SectionIndex(spelled + Blanks(k) + Decimal(n), word) == Some(n)
  {
    var d := Decimal(n);
    var name := spelled + Blanks(k) + d;
    assert name[|word|] == Blanks(k)[0] == ' ';
    assert HasPrefixIgnoringCase(name, word) by {
      forall i | 0 <= i < |word| ensures LowerAscii(name[i]) == word[i] {
        assert name[i] == spelled[i];
      }
    }
    var rest := name[|word|..];
    assert rest == Blanks(k) + d;
    BlankRunOfBlanks(k, d);
    assert rest[k..] == d;
    DecimalRoundTrip(n);
  }

  lemma {:induction false} BlankRunOfBlanks(k: nat, d: string)
    requires d == [] || d[0] != ' '
    ensures BlankRunLength(Blanks(k) + d) == k
  {
    if k > 0 {
      assert (Blanks(k) + d)[1..] == Blanks(k - 1) + d;
      BlankRunOfBlanks(k - 1, d);
    } else {
      assert Blanks(0) + d == d;
    }
  }

  /** filter(pattern.match, cp.sections()) */
  function SectionNames(doc: Document, word: string): (names: seq<string>)
    ensures forall i | 0 <= i < |names| :: IsSectionOf(names[i], word)
  {
    if doc == [] then []
    else (if IsSectionOf(doc[0].name, word) then [doc[0].name] else []) + SectionNames(doc[1..], word)
  }

  /** The positions, from i on, of the sections whose name the pattern accepts. */
  function MatchesFrom(doc: Document, word: string, i: nat): (pos: seq<nat>)
    requires i <= |doc|
    ensures forall k | 0 <= k < |pos| :: i <= pos[k] < |doc| && IsSectionOf(doc[pos[k]].name, word)
    ensures forall j | i <= j < |doc| && IsSectionOf(doc[j].name, word) :: j in pos
    ensures forall k, l | 0 <= k < l < |pos| :: pos[k] < pos[l]
    decreases |doc| - i
  {
    if i == |doc| then []
    else (if IsSectionOf(doc[i].name, word) then [i] else []) + MatchesFrom(doc, word, i + 1)
  }

  /** The filter keeps the name of every section the pattern accepts, and only those,
      in file order. */
  lemma SectionNamesInOrder(doc: Document, word: string)
    ensures var pos := MatchesFrom(doc, word, 0);
            && |SectionNames(doc, word)| == |pos|
            && forall k | 0 <= k < |pos| :: SectionNames(doc, word)[k] == doc[pos[k]].name
  {
    SectionNamesFrom(doc, word, 0);
    assert doc[0..] == doc;
  }

  lemma {:induction false} SectionNamesFrom(doc: Document, word: string, i: nat)
    requires i <= |doc|
    ensures var pos := MatchesFrom(doc, word, i);
            && |SectionNames(doc[i..], word)| == |pos|
            && forall k | 0 <= k < |pos| :: SectionNames(doc[i..], word)[k] == doc[pos[k]].name
    decreases |doc| - i
  {
    if i < |doc| {
      SectionNamesFrom(doc, word, i + 1);
      assert doc[i..][0] == doc[i];
      assert doc[i..][1..] == doc[i + 1..];
    }
  }

  /** map(get_ind, sections): every name must carry an index. */
  function SectionIndices(names: seq<string>, word: string): (r: Option<seq<nat>>)
    ensures r.Some? <==> forall i | 0 <= i < |names| :: SectionIndex(names[i], word).Some?
    ensures r.Some? ==> (&& |r.value| == |names|
                         && forall i | 0 <= i < |names| :: SectionIndex(names[i], word) == Some(r.value[i]))
  {
    if names == [] then Some([])
    else
      match (SectionIndex(names[0], word), SectionIndices(names[1..], word))
      case (Some(n), Some(ns)) => Some([n] + ns)
      case _ => None
  }

  /** {ind: sec for ind, sec in izip(inds, secs)}: a later pair overrides an earlier one. */
  function ZipToMap(inds: seq<nat>, secs: seq<string>): (m: map<int, string>)
    requires |inds| == |secs|
    ensures m.Keys == set i | 0 <= i < |inds| :: inds[i]
    ensures Distinct(inds) ==> forall i | 0 <= i < |inds| :: m[inds[i]] == secs[i]
    decreases |inds|
  {
    if inds == [] then map[]
    else
      var n := |inds| - 1;
      var m := ZipToMap(inds[..n], secs[..n]);
      assert forall i | 0 <= i < n :: inds[..n][i] == inds[i];
      m[inds[n] := secs[n]]
  }
}
