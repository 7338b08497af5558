/**
 * `LegalMetadataExtractor`: case metadata read off the beginning of a legal
 * judgment. Each regular expression is an abstract matcher over the text
 * prefix: a `search` pattern gives its first match or nothing, a `finditer`
 * pattern gives the captured text of every match in order. Everything the
 * extractor does around the matchers is modelled as written.
 */
module Metadata {
  import opened Wrappers
  import opened Text

  /** The cascades read `text[:2000]`, the list fields `text[:3000]`. */
  const CascadeWindow := 2000
  const ListWindow := 3000
  const MaxJudges := 5
  const MaxTopics := 5

  /** A `re.search` match: `group(0)` and the capturing groups `group(1)`, `group(2)`, ... */
  datatype Match = Match(whole: string, groups: seq<string>)

  /**
   * The extractor's pattern lists, in their order. `court` yields `group(0)`,
   * `caseNumber`, `date` and `judge` yield `group(1)`, `citation` yields
   * `group(0)` of every match.
   */
  datatype Patterns = Patterns(
    caseName: seq<string -> Option<Match>>,
    citation: seq<string -> seq<string>>,
    court: seq<string -> Option<string>>,
    judge: seq<string -> seq<string>>,
    caseNumber: seq<string -> Option<string>>,
    date: seq<string -> Option<string>>)

  /** The extracted record, `extract_all_metadata`'s dictionary. */
  datatype Record = Record(
    filename: string,
    caseName: Option<string>,
    citations: seq<string>,
    court: Option<string>,
    judges: seq<string>,
    caseNumber: Option<string>,
    judgmentDate: Option<string>,
    subjectMatter: seq<string>)

  // ---------------------------------------------------------------------------
  // First match wins

  /** What the first pattern that matches `s` yields, or `None` when none does. */
  function First<T>(patterns: seq<string -> Option<T>>, s: string): Option<T> {
    if patterns == [] then None
    else if patterns[0](s).Some? then patterns[0](s)
    else First(patterns[1..], s)
  }

  /** `First` is `None` exactly when no pattern matches, and otherwise what the earliest matching pattern yields. */
  lemma {:induction false} FirstIsEarliest<T>(patterns: seq<string -> Option<T>>, s: string)
    ensures First(patterns, s).None? <==> forall i :: 0 <= i < |patterns| ==> patterns[i](s).None?
    ensures First(patterns, s).Some? ==>
      exists i :: 0 <= i < |patterns| && patterns[i](s) == First(patterns, s)
        && forall j :: 0 <= j < i ==> patterns[j](s).None?
  {
    if patterns != [] {
      var tail := patterns[1..];
      FirstIsEarliest(tail, s);
      assert forall i :: 0 < i < |patterns| ==> patterns[i] == tail[i - 1];
      if patterns[0](s).None? && First(tail, s).Some? {
        var i :| 0 <= i < |tail| && tail[i](s) == First(tail, s) && forall j :: 0 <= j < i ==> tail[j](s).None?;
        assert patterns[i + 1](s) == First(patterns, s);
      }
    }
  }

  /** The loop `for pattern in patterns: match = re.search(...); if match: return ...`. */
  method SearchFirst<T>(patterns: seq<string -> Option<T>>, s: string) returns (r: Option<T>)
    ensures r == First(patterns, s)
  {
    var i := 0;
    while i < |patterns|
      invariant 0 <= i <= |patterns|
      invariant First(patterns[i..], s) == First(patterns, s)
    {
      var m := patterns[i](s);
      assert patterns[i..][1..] == patterns[i + 1..];
      if m.Some? {
        return m;
      }
      i := i + 1;
    }
    return None;
  }

  // ---------------------------------------------------------------------------
  // Case name, court, case number, date

  /** A two-group case-name match reads `g1 vs g2`, both stripped; any other match is the stripped whole match. */
  function CaseNameOf(m: Match): string {
    if |m.groups| == 2 then Strip(m.groups[0]) + " vs " + Strip(m.groups[1])
    else Strip(m.whole)
  }

  function CaseName(patterns: seq<string -> Option<Match>>, text: string): Option<string> {
    match First(patterns, Prefix(text, CascadeWindow))
    case None => None
    case Some(m) => Some(CaseNameOf(m))
  }

  /** `extract_case_name`. */
  method ExtractCaseName(patterns: seq<string -> Option<Match>>, text: string) returns (r: Option<string>)
    ensures r == CaseName(patterns, text)
  {
    var m := SearchFirst(patterns, Prefix(text, CascadeWindow));
    if m.Some? {
      return Some(CaseNameOf(m.value));
    }
    return None;
  }

  /**
   * The case name comes from the earliest case-name pattern that matches the
   * first 2000 characters, rendered `g1 vs g2` when it has two groups and as
   * the stripped match otherwise; it is `None` when no pattern matches.
   */
  lemma CaseNameIsEarliest(patterns: seq<string -> Option<Match>>, text: string)
    ensures var s := Prefix(text, CascadeWindow);
      && (CaseName(patterns, text).None? <==> forall i :: 0 <= i < |patterns| ==> patterns[i](s).None?)
      && (CaseName(patterns, text).Some? ==>
          exists i :: 0 <= i < |patterns| && patterns[i](s).Some?
            && (forall j :: 0 <= j < i ==> patterns[j](s).None?)
            && var m := patterns[i](s).value;
               CaseName(patterns, text).value
                 == if |m.groups| == 2 then Strip(m.groups[0]) + " vs " + Strip(m.groups[1]) else Strip(m.whole))
  {
    FirstIsEarliest(patterns, Prefix(text, CascadeWindow));
  }

  /** `extract_court_info`, `extract_case_number` and `extract_judgment_date`: the earliest matching pattern on the first 2000 characters. */
  method ExtractFirst(patterns: seq<string -> Option<string>>, text: string) returns (r: Option<string>)
    ensures r == First(patterns, Prefix(text, CascadeWindow))
  {
    r := SearchFirst(patterns, Prefix(text, CascadeWindow));
  }

  // ---------------------------------------------------------------------------
  // Collected lists

  /** Every match of every pattern, pattern by pattern, in order. */
  function AllMatches(patterns: seq<string -> seq<string>>, s: string): seq<string> {
    if patterns == [] then []
    else AllMatches(patterns[..|patterns| - 1], s) + patterns[|patterns| - 1](s)
  }

  /** `m` is a match of one of the patterns. */
  predicate IsMatch(patterns: seq<string -> seq<string>>, s: string, m: string) {
    exists i :: 0 <= i < |patterns| && m in patterns[i](s)
  }

  /** The collected matches are exactly the matches of the patterns. */
  lemma {:induction false} AllMatchesMembers(patterns: seq<string -> seq<string>>, s: string)
    ensures forall m :: m in AllMatches(patterns, s) <==> IsMatch(patterns, s, m)
  {
    if patterns != [] {
      var init := patterns[..|patterns| - 1];
      AllMatchesMembers(init, s);
      assert forall i :: 0 <= i < |init| ==> init[i] == patterns[i];
      forall m | IsMatch(patterns, s, m) ensures m in AllMatches(patterns, s) {
        var i :| 0 <= i < |patterns| && m in patterns[i](s);
        if i < |init| {
          assert IsMatch(init, s, m);
        }
      }
    }
  }

  /** `list(set(xs))`, keeping each element's first occurrence. */
  function Dedupe(xs: seq<string>): (r: seq<string>)
    ensures NoDuplicates(r)
    ensures forall y :: y in r <==> y in xs
    ensures |r| <= |xs|
  {
    if xs == [] then []
    else
      var init, last := xs[..|xs| - 1], xs[|xs| - 1];
      var d := Dedupe(init);
      assert forall y :: y in xs <==> y in init || y == last;
      if last in d then d else d + [last]
  }

  /** The loop of `extract_citations` before de-duplication: every match of every pattern, appended in order. */
  method CollectMatches(patterns: seq<string -> seq<string>>, s: string) returns (found: seq<string>)
    ensures found == AllMatches(patterns, s)
  {
    found := [];
    for i := 0 to |patterns|
      invariant found == AllMatches(patterns[..i], s)
    {
      var matches := patterns[i](s);
      for j := 0 to |matches|
        invariant found == AllMatches(patterns[..i], s) + matches[..j]
      {
        found := found + [matches[j]];
        assert matches[..j + 1] == matches[..j] + [matches[j]];
      }
      assert matches[..|matches|] == matches;
      assert patterns[..i + 1][..i] == patterns[..i];
    }
    assert patterns[..|patterns|] == patterns;
  }

  function Citations(patterns: seq<string -> seq<string>>, text: string): seq<string> {
    Dedupe(AllMatches(patterns, Prefix(text, ListWindow)))
  }

  /** `extract_citations`. */
  method ExtractCitations(patterns: seq<string -> seq<string>>, text: string) returns (r: seq<string>)
    ensures r == Citations(patterns, text)
  {
    var citations := CollectMatches(patterns, Prefix(text, ListWindow));
    r := Dedupe(citations);
  }

  /** The citations are the matches of the citation patterns on the first 3000 characters, each once, with no cap. */
  lemma CitationsAreMatches(patterns: seq<string -> seq<string>>, text: string)
    ensures var r := Citations(patterns, text);
      NoDuplicates(r) && forall c :: c in r <==> IsMatch(patterns, Prefix(text, ListWindow), c)
  {
    AllMatchesMembers(patterns, Prefix(text, ListWindow));
  }

  /** The stripped captures longer than three characters, in order. */
  function LongNames(captures: seq<string>): seq<string> {
    if captures == [] then []
    else
      var name := Strip(captures[|captures| - 1]);
      LongNames(captures[..|captures| - 1]) + if |name| > 3 then [name] else []
  }

  /** A name survives exactly when it is a stripped capture longer than three characters. */
  lemma {:induction false} LongNamesMembers(captures: seq<string>)
    ensures forall n :: n in LongNames(captures) <==> |n| > 3 && exists c :: c in captures && n == Strip(c)
  {
    if captures != [] {
      var init, last := captures[..|captures| - 1], captures[|captures| - 1];
      LongNamesMembers(init);
      assert forall c :: c in captures <==> c in init || c == last;
    }
  }

  lemma LongNamesSnoc(captures: seq<string>, c: string)
    ensures LongNames(captures + [c]) == LongNames(captures) + if |Strip(c)| > 3 then [Strip(c)] else []
  {
    assert (captures + [c])[..|captures|] == captures;
  }

  /** Collecting the matches of one more pattern. */
  lemma AllMatchesStep(patterns: seq<string -> seq<string>>, s: string, i: nat)
    requires i < |patterns|
    ensures AllMatches(patterns[..i + 1], s) == AllMatches(patterns[..i], s) + patterns[i](s)
  {
    assert patterns[..i + 1][..i] == patterns[..i];
  }

  /** Names of two runs of captures are the names of each, one after the other. */
  lemma {:induction false} LongNamesAppend(xs: seq<string>, ys: seq<string>)
    ensures LongNames(xs + ys) == LongNames(xs) + LongNames(ys)
    decreases |ys|
  {
    if ys != [] {
      var init := ys[..|ys| - 1];
      assert (xs + ys)[..|xs + ys| - 1] == xs + init;
      assert (xs + ys)[|xs + ys| - 1] == ys[|ys| - 1];
      LongNamesAppend(xs, init);
    } else {
      assert xs + ys == xs;
    }
  }

  /** The inner loop of `extract_judges`: the long stripped captures of one pattern, appended. */
  method AppendLongNames(judges: seq<string>, matches: seq<string>) returns (r: seq<string>)
    ensures r == judges + LongNames(matches)
  {
    r := judges;
    ghost var names: seq<string> := [];
    for j := 0 to |matches|
      invariant names == LongNames(matches[..j])
      invariant r == judges + names
    {
      var judgeName := Strip(matches[j]);
      LongNamesSnoc(matches[..j], matches[j]);
      assert matches[..j + 1] == matches[..j] + [matches[j]];
      if |judgeName| > 3 {
        AppendAssoc(judges, names, [judgeName]);
        r := r + [judgeName];
        names := names + [judgeName];
      } else {
        assert names + [] == names;
      }
    }
    assert matches[..|matches|] == matches;
  }

  /** The loop of `extract_judges` before de-duplication. */
  method CollectJudges(patterns: seq<string -> seq<string>>, s: string) returns (judges: seq<string>)
    ensures judges == LongNames(AllMatches(patterns, s))
  {
    judges := [];
    for i := 0 to |patterns|
      invariant judges == LongNames(AllMatches(patterns[..i], s))
    {
      judges := AppendLongNames(judges, patterns[i](s));
      AllMatchesStep(patterns, s, i);
      LongNamesAppend(AllMatches(patterns[..i], s), patterns[i](s));
    }
    assert patterns[..|patterns|] == patterns;
  }

  function Judges(patterns: seq<string -> seq<string>>, text: string): seq<string> {
    Prefix(Dedupe(LongNames(AllMatches(patterns, Prefix(text, ListWindow)))), MaxJudges)
  }

  /** `extract_judges`. */
  method ExtractJudges(patterns: seq<string -> seq<string>>, text: string) returns (r: seq<string>)
    ensures r == Judges(patterns, text)
  {
    var judges := CollectJudges(patterns, Prefix(text, ListWindow));
    r := Prefix(Dedupe(judges), MaxJudges);
  }

  /** `n` is a stripped judge capture of more than three characters. */
  ghost predicate IsJudgeName(patterns: seq<string -> seq<string>>, s: string, n: string) {
    |n| > 3 && exists c :: IsMatch(patterns, s, c) && n == Strip(c)
  }

  /** The deduplicated long captures are exactly the judge names. */
  lemma JudgeNamesExactly(patterns: seq<string -> seq<string>>, s: string)
    ensures var d := Dedupe(LongNames(AllMatches(patterns, s)));
      forall n :: n in d <==> IsJudgeName(patterns, s, n)
  {
    var all := AllMatches(patterns, s);
    AllMatchesMembers(patterns, s);
    LongNamesMembers(all);
    forall n | IsJudgeName(patterns, s, n) ensures n in LongNames(all) {
      var c :| IsMatch(patterns, s, c) && n == Strip(c);
      assert c in all;
    }
  }

  /**
   * At most five judges, no name twice, each a stripped capture longer than
   * three characters from the first 3000 characters; when there are at most
   * five such names, all of them.
   */
  lemma JudgesAreNames(patterns: seq<string -> seq<string>>, text: string)
    ensures var s := Prefix(text, ListWindow);
      var r := Judges(patterns, text);
      && |r| <= MaxJudges
      && NoDuplicates(r)
      && (forall n :: n in r ==> IsJudgeName(patterns, s, n))
      && (|Dedupe(LongNames(AllMatches(patterns, s)))| <= MaxJudges ==>
            forall n :: IsJudgeName(patterns, s, n) ==> n in r)
  {
    var s := Prefix(text, ListWindow);
    var d := Dedupe(LongNames(AllMatches(patterns, s)));
    JudgeNamesExactly(patterns, s);
    var r := Judges(patterns, text);
    assert r == Prefix(d, MaxJudges);
    forall n | n in r ensures n in d {
      var k :| 0 <= k < |r| && r[k] == n;
      assert d[k] == n;
    }
    if |d| <= MaxJudges {
      assert r == d;
    }
  }

  // ---------------------------------------------------------------------------
  // Subject matter

  /** The fixed topic vocabulary of `extract_subject_matter`, in its order. */
  const LegalTopics: seq<string> := [
    "Constitution", "Contract", "Property", "Criminal", "Civil",
    "Service", "Land", "Tax", "Administrative", "Writ",
    "Fundamental Rights", "Tort", "Family", "Succession",
    "Evidence", "Procedure", "Arbitration", "Company",
    "Banking", "Insurance", "Labour", "Employment"]

  /** The vocabulary entries whose lower-case form occurs in `lowered`, in vocabulary order. */
  function Found(vocabulary: seq<string>, lowered: string): seq<string> {
    if vocabulary == [] then []
    else
      var topic := vocabulary[|vocabulary| - 1];
      Found(vocabulary[..|vocabulary| - 1], lowered) + if Contains(lowered, Lower(topic)) then [topic] else []
  }

  /** The first five vocabulary entries that occur, ignoring case, in the first 3000 characters. */
  function Topics(vocabulary: seq<string>, text: string): seq<string> {
    Prefix(Found(vocabulary, Lower(Prefix(text, ListWindow))), MaxTopics)
  }

  function SubjectMatter(text: string): seq<string> {
    Topics(LegalTopics, text)
  }

  /** The topic loop of `extract_subject_matter`, over any vocabulary. */
  method FindTopics(vocabulary: seq<string>, textLower: string) returns (topics: seq<string>)
    ensures topics == Found(vocabulary, textLower)
  {
    topics := [];
    for i := 0 to |vocabulary|
      invariant topics == Found(vocabulary[..i], textLower)
    {
      var topic := vocabulary[i];
      assert vocabulary[..i + 1][..i] == vocabulary[..i];
      if Contains(textLower, Lower(topic)) {
        topics := topics + [topic];
      }
    }
    assert vocabulary[..|vocabulary|] == vocabulary;
  }

  /** `extract_subject_matter`. */
  method ExtractSubjectMatter(text: string) returns (r: seq<string>)
    ensures r == SubjectMatter(text)
  {
    var textLower := Lower(Prefix(text, ListWindow));
    var topics := FindTopics(LegalTopics, textLower);
    r := Prefix(topics, MaxTopics);
  }

  /** `xs` is `ys` with some elements left out, order kept. */
  predicate IsSubsequence<T(==)>(xs: seq<T>, ys: seq<T>)
    decreases |ys|
  {
    if xs == [] then true
    else if ys == [] then false
    else if xs[|xs| - 1] == ys[|ys| - 1] then IsSubsequence(xs[..|xs| - 1], ys[..|ys| - 1])
    else IsSubsequence(xs, ys[..|ys| - 1])
  }

  /** The found topics are exactly the vocabulary entries that occur, in vocabulary order, each once if the vocabulary has no repeats. */
  lemma {:induction false} FoundInOrder(vocabulary: seq<string>, lowered: string)
    ensures forall t :: t in Found(vocabulary, lowered) <==> t in vocabulary && Contains(lowered, Lower(t))
    ensures IsSubsequence(Found(vocabulary, lowered), vocabulary)
    ensures NoDuplicates(vocabulary) ==> NoDuplicates(Found(vocabulary, lowered))
  {
    if vocabulary != [] {
      var init, topic := vocabulary[..|vocabulary| - 1], vocabulary[|vocabulary| - 1];
      FoundInOrder(init, lowered);
      assert forall t :: t in vocabulary <==> t in init || t == topic;
      var f := Found(vocabulary, lowered);
      if Contains(lowered, Lower(topic)) {
        assert f[..|f| - 1] == Found(init, lowered);
        if NoDuplicates(vocabulary) {
          assert topic !in init;
        }
      } else {
        assert f == Found(init, lowered);
        SubsequenceOfInit(f, vocabulary);
      }
    }
  }

  /** A subsequence of all but the last element is a subsequence of the whole. */
  lemma {:induction false} SubsequenceOfInit<T>(xs: seq<T>, ys: seq<T>)
    requires ys != [] && IsSubsequence(xs, ys[..|ys| - 1])
    ensures IsSubsequence(xs, ys)
    decreases |ys|, 0
  {
    if xs != [] && xs[|xs| - 1] == ys[|ys| - 1] {
      SubsequenceDropLast(xs, ys[..|ys| - 1]);
    }
  }

  /** Leaving out the last element of a subsequence keeps it a subsequence. */
  lemma {:induction false} SubsequenceDropLast<T>(xs: seq<T>, ys: seq<T>)
    requires xs != [] && IsSubsequence(xs, ys)
    ensures IsSubsequence(xs[..|xs| - 1], ys)
    decreases |ys|, 1
  {
    if xs[|xs| - 1] != ys[|ys| - 1] {
      SubsequenceDropLast(xs, ys[..|ys| - 1]);
    }
    SubsequenceOfInit(xs[..|xs| - 1], ys);
  }

  /** A prefix of a subsequence is a subsequence. */
  lemma {:induction false} PrefixOfSubsequence<T>(xs: seq<T>, ys: seq<T>, n: nat)
    requires IsSubsequence(xs, ys)
    ensures IsSubsequence(Prefix(xs, n), ys)
    decreases |xs|
  {
    if n < |xs| {
      SubsequenceDropLast(xs, ys);
      assert xs[..|xs| - 1][..n] == xs[..n];
      PrefixOfSubsequence(xs[..|xs| - 1], ys, n);
    }
  }

  /**
   * At most five topics, each from the vocabulary and occurring, ignoring
   * case, in the first 3000 characters, in vocabulary order and each once
   * when the vocabulary has no repeats; when at most five occur, all of them.
   */
  lemma TopicsFromVocabulary(vocabulary: seq<string>, text: string)
    ensures var lowered := Lower(Prefix(text, ListWindow));
      var r := Topics(vocabulary, text);
      && |r| <= MaxTopics
      && (forall t :: t in r ==> t in vocabulary && Contains(lowered, Lower(t)))
      && IsSubsequence(r, vocabulary)
      && (NoDuplicates(vocabulary) ==> NoDuplicates(r))
      && (|Found(vocabulary, lowered)| <= MaxTopics ==>
            forall t :: t in vocabulary && Contains(lowered, Lower(t)) ==> t in r)
  {
    var lowered := Lower(Prefix(text, ListWindow));
    var f := Found(vocabulary, lowered);
    var r := Topics(vocabulary, text);
    FoundInOrder(vocabulary, lowered);
    PrefixOfSubsequence(f, vocabulary, MaxTopics);
    assert forall k :: 0 <= k < |r| ==> r[k] == f[k];
  }

  /** The subject matter is drawn, in order, from the fixed vocabulary. */
  lemma SubjectMatterTopics(text: string)
    ensures var lowered := Lower(Prefix(text, ListWindow));
      var r := SubjectMatter(text);
      && |r| <= MaxTopics
      && (forall t :: t in r ==> t in LegalTopics && Contains(lowered, Lower(t)))
      && IsSubsequence(r, LegalTopics)
      && (|Found(LegalTopics, lowered)| <= MaxTopics ==>
            forall t :: t in LegalTopics && Contains(lowered, Lower(t)) ==> t in r)
  {
    TopicsFromVocabulary(LegalTopics, text);
  }

  // ---------------------------------------------------------------------------
  // The whole record

  /** `extract_all_metadata`'s dictionary. */
  function AllMetadata(patterns: Patterns, text: string, filename: string): Record {
    Record(
      filename,
      CaseName(patterns.caseName, text),
      Citations(patterns.citation, text),
      First(patterns.court, Prefix(text, CascadeWindow)),
      Judges(patterns.judge, text),
      First(patterns.caseNumber, Prefix(text, CascadeWindow)),
      First(patterns.date, Prefix(text, CascadeWindow)),
      SubjectMatter(text))
  }

  /** `extract_all_metadata`. */
  method ExtractAllMetadata(patterns: Patterns, text: string, filename: string) returns (r: Record)
    ensures r == AllMetadata(patterns, text, filename)
    ensures r.filename == filename
  {
    var caseName := ExtractCaseName(patterns.caseName, text);
    var citations := ExtractCitations(patterns.citation, text);
    var court := ExtractFirst(patterns.court, text);
    var judges := ExtractJudges(patterns.judge, text);
    var caseNumber := ExtractFirst(patterns.caseNumber, text);
    var judgmentDate := ExtractFirst(patterns.date, text);
    var subjectMatter := ExtractSubjectMatter(text);
    r := Record(filename, caseName, citations, court, judges, caseNumber, judgmentDate, subjectMatter);
  }

  /** The record depends on the text only through its first 3000 characters. */
  lemma MetadataReadsPrefix(patterns: Patterns, text: string, text': string, filename: string)
    requires Prefix(text, ListWindow) == Prefix(text', ListWindow)
    ensures AllMetadata(patterns, text, filename) == AllMetadata(patterns, text', filename)
  {
    PrefixOfPrefix(text, CascadeWindow, ListWindow);
    PrefixOfPrefix(text', CascadeWindow, ListWindow);
  }

  // ---------------------------------------------------------------------------
  // Display

  /** Python truthiness of an optional string: present and not empty. */
  predicate Given(v: Option<string>) {
    v.Some? && v.value != []
  }

  /** `[title + value]` when the field is given, else nothing. */
  function Part(title: string, v: Option<string>): seq<string> {
    if Given(v) then [title + v.value] else []
  }

  function ListPart(title: string, vs: seq<string>): seq<string> {
    if vs != [] then [title + Join(vs, ", ")] else []
  }

  /** The display parts, in the fixed order Case, Case No, Court, Judges, Date, Citations, Topics. */
  function Parts(m: Record): seq<string> {
    Part("Case: ", m.caseName) + Part("Case No: ", m.caseNumber) + Part("Court: ", m.court)
    + ListPart("Judges: ", m.judges) + Part("Date: ", m.judgmentDate)
    + ListPart("Citations: ", m.citations) + ListPart("Topics: ", m.subjectMatter)
  }

  /** No field of the record is shown. */
  predicate NothingToShow(m: Record) {
    !Given(m.caseName) && !Given(m.caseNumber) && !Given(m.court) && m.judges == []
    && !Given(m.judgmentDate) && m.citations == [] && m.subjectMatter == []
  }

  const NoMetadata := "No metadata extracted"

  /** `format_metadata_for_display`. */
  function FormatMetadata(m: Record): (r: string)
    ensures r == NoMetadata <==> NothingToShow(m)
    ensures !NothingToShow(m) ==> r == Join(Parts(m), " | ")
  {
    var parts := Parts(m);
    if parts != [] then
      assert parts[0][0] in "CJDT";
      JoinStartsWithFirst(parts, " | ");
      Join(parts, " | ")
    else NoMetadata
  }

  /** A join starts with the first part when that part is not empty. */
  lemma JoinStartsWithFirst(parts: seq<string>, sep: string)
    requires parts != [] && parts[0] != []
    ensures Join(parts, sep) != [] && Join(parts, sep)[0] == parts[0][0]
  {
  }
}
