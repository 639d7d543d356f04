/** The response formatter of core/graphrag.py (`format_response`): inline
    citation tags `[node:ID]` / `[chunk:ID]` are collected, de-duplicated
    in first-seen order and listed in a trailing "References:" block.

    The regular expression `\[(?:node|chunk):[^\]]+\]` and `re.findall`
    are modelled by `TagLen` and `FindTags`: a match starts with one of the
    two openings, takes the characters up to the first `]` (at least one,
    newlines included) and that `]`; the scan resumes after a match and one
    character further after a failed attempt. */
module Citations {
  import opened Common

  // ---------------------------------------------------------------------
  // re.findall(r'\[(?:node|chunk):[^\]]+\]', s)
  // ---------------------------------------------------------------------

  /** Length of the opening `[node:` or `[chunk:` at the start of `t`, 0 if
      `t` starts with neither. */
  function OpenLen(t: string): (p: nat)
    ensures p == 0 || p == 6 || p == 7
    ensures p > 0 ==> p <= |t| && t[0] == '['
  {
    if StartsWith(t, "[node:") then 6
    else if StartsWith(t, "[chunk:") then 7
    else 0
  }

  /** Index of the first `]` of `t` at or after `from`, `|t|` if none. */
  function CloseFrom(t: string, from: nat): (k: nat)
    requires from <= |t|
    ensures from <= k <= |t|
    ensures k < |t| ==> t[k] == ']'
    ensures forall m :: from <= m < k ==> t[m] != ']'
    decreases |t| - from
  {
    if from == |t| || t[from] == ']' then from else CloseFrom(t, from + 1)
  }

  /** Length of the citation tag the pattern matches at the start of `t`. */
  function TagLen(t: string): (r: Option<nat>)
    ensures r.Some? ==> 0 < r.value <= |t|
  {
    var p := OpenLen(t);
    if p == 0 then None
    else
      var k := CloseFrom(t, p);
      if p < k < |t| then Some(k + 1) else None
  }

  /** `re.findall` of the citation pattern: the non-overlapping matches,
      left to right. */
  function FindTags(s: string): seq<string>
    decreases |s|
  {
    if s == [] then []
    else match TagLen(s)
      case Some(n) => [s[..n]] + FindTags(s[n..])
      case None => FindTags(s[1..])
  }

  /** A complete citation tag: an opening, at least one character other
      than `]`, and a closing `]`. */
  predicate IsTag(u: string) {
    var p := OpenLen(u);
    && p > 0
    && |u| > p + 1
    && u[|u| - 1] == ']'
    && (forall m :: p <= m < |u| - 1 ==> u[m] != ']')
  }

  /** A tag followed by anything is matched exactly. */
  lemma TagLenOfTag(u: string, rest: string)
    requires IsTag(u)
    ensures TagLen(u + rest) == Some(|u|)
  {
    var t := u + rest;
    var p := OpenLen(u);
    assert t[..|u|] == u;
    assert OpenLen(t) == p by {
      assert t[..6] == u[..6];
      if |u| >= 7 { assert t[..7] == u[..7]; }
    }
    assert forall m :: p <= m < |u| - 1 ==> t[m] != ']';
    CloseFromFirst(t, p, |u| - 1);
  }

  /** `CloseFrom` finds a `]` preceded only by other characters. */
  lemma {:induction false} CloseFromFirst(t: string, from: nat, k: nat)
    requires from <= k < |t| && t[k] == ']'
    requires forall m :: from <= m < k ==> t[m] != ']'
    ensures CloseFrom(t, from) == k
    decreases k - from
  {
    if from < k {
      CloseFromFirst(t, from + 1, k);
    }
  }

  /** Every match is a complete tag. */
  lemma {:induction false} FindTagsAreTags(s: string)
    ensures forall u :: u in FindTags(s) ==> IsTag(u)
    decreases |s|
  {
    if s != [] {
      match TagLen(s)
      case Some(n) =>
        FindTagsAreTags(s[n..]);
        var u := s[..n];
        var p := OpenLen(s);
        assert u[..p] == s[..p];
        assert OpenLen(u) == p by {
          if p == 6 { assert u[..6] == s[..6]; } else { assert u[..7] == s[..7]; }
        }
      case None =>
        FindTagsAreTags(s[1..]);
    }
  }

  /** A text that does not start with `[` has the matches of its tail. */
  lemma NoOpeningAtHead(s: string)
    requires s != [] && s[0] != '['
    ensures FindTags(s) == FindTags(s[1..])
  {
  }

  /** A prefix free of `[` contributes no match and cannot start one. */
  lemma {:induction false} SkipPlain(w: string, x: string)
    requires '[' !in w
    ensures FindTags(w + x) == FindTags(x)
    decreases |w|
  {
    if w != [] {
      assert (w + x)[0] == w[0] != '[';
      assert TagLen(w + x).None?;
      assert (w + x)[1..] == w[1..] + x;
      SkipPlain(w[1..], x);
    } else {
      assert w + x == x;
    }
  }

  /** A text with no `]` has no match. */
  lemma {:induction false} NoCloseNoTags(s: string)
    requires ']' !in s
    ensures FindTags(s) == []
    decreases |s|
  {
    if s != [] {
      assert TagLen(s).None? by {
        if OpenLen(s) > 0 {
          assert CloseFrom(s, OpenLen(s)) == |s|;
        }
      }
      NoCloseNoTags(s[1..]);
    }
  }

  /** A text with neither opening as a substring has no match. */
  lemma {:induction false} NoOpeningNoTags(s: string)
    requires !Contains(s, "[node:") && !Contains(s, "[chunk:")
    ensures FindTags(s) == []
    decreases |s|
  {
    if s != [] {
      assert OpenLen(s) == 0 by {
        if StartsWith(s, "[node:") { assert OccursAt(s, "[node:", 0); }
        if StartsWith(s, "[chunk:") { assert OccursAt(s, "[chunk:", 0); }
      }
      forall sub | Contains(s[1..], sub) ensures Contains(s, sub) {
        ContainsInConcat([s[0]], s[1..], [], sub);
        assert [s[0]] + s[1..] + [] == s;
      }
      NoOpeningNoTags(s[1..]);
    }
  }

  // ---------------------------------------------------------------------
  // Closed texts: no opening whose `]` is missing
  // ---------------------------------------------------------------------

  /** `t` starts with an opening that no later `]` closes. */
  predicate Unclosed(t: string) {
    var p := OpenLen(t);
    p > 0 && ']' !in t[p..]
  }

  /** The suffix of `a` from index `i` starts with an unclosed opening. */
  predicate UnclosedAt(a: string, i: nat)
    requires i < |a|
  {
    Unclosed(a[i..])
  }

  /** Every opening in `a` is followed by a `]` inside `a`. */
  predicate Closed(a: string) {
    forall i :: 0 <= i < |a| ==> !UnclosedAt(a, i)
  }

  /** Appending text that starts with whitespace does not change which
      opening a text starts with. */
  lemma OpenLenAppend(t: string, b: string)
    requires t != []
    requires b == [] || IsSpace(b[0])
    ensures OpenLen(t + b) == OpenLen(t)
  {
    var s := t + b;
    if |t| >= 7 {
      assert s[..6] == t[..6] && s[..7] == t[..7];
    } else if |t| == 6 {
      assert s[..6] == t[..6];
      if b != [] { assert s[6] == b[0]; }
    } else if b != [] {
      assert IsSpace(s[|t|]);
      assert forall k :: 0 <= k < 6 ==> !IsSpace("[node:"[k]);
      assert forall k :: 0 <= k < 7 ==> !IsSpace("[chunk:"[k]);
      assert !StartsWith(s, "[node:") by {
        if 6 <= |s| { assert s[..6][|t|] == s[|t|]; }
      }
      assert !StartsWith(s, "[chunk:") by {
        if 7 <= |s| { assert s[..7][|t|] == s[|t|]; }
      }
    }
  }

  /** In a closed text, the match at the head does not depend on what
      follows, provided that starts with whitespace. */
  lemma TagLenAppend(t: string, b: string)
    requires t != [] && !Unclosed(t)
    requires b == [] || IsSpace(b[0])
    ensures TagLen(t + b) == TagLen(t)
  {
    OpenLenAppend(t, b);
    var p := OpenLen(t);
    if p > 0 {
      var k := CloseFrom(t, p);
      assert k < |t| by {
        var m :| m in t[p..] && m == ']';
        var j :| 0 <= j < |t[p..]| && t[p..][j] == ']';
        assert t[p + j] == ']';
      }
      CloseFromFirst(t + b, p, k);
    }
  }

  lemma ClosedSuffix(a: string, j: nat)
    requires Closed(a) && j <= |a|
    ensures Closed(a[j..])
  {
    forall i | 0 <= i < |a[j..]| ensures !UnclosedAt(a[j..], i) {
      assert a[j..][i..] == a[j + i..];
      assert !UnclosedAt(a, j + i);
    }
  }

  /** Matching distributes over a concatenation whose left part is closed
      and whose right part starts with whitespace. */
  lemma {:induction false} FindTagsAppend(a: string, b: string)
    requires Closed(a)
    requires b == [] || IsSpace(b[0])
    ensures FindTags(a + b) == FindTags(a) + FindTags(b)
    decreases |a|
  {
    if a == [] {
      assert a + b == b;
    } else {
      assert !UnclosedAt(a, 0) && a[0..] == a;
      TagLenAppend(a, b);
      match TagLen(a)
      case Some(n) =>
        assert (a + b)[..n] == a[..n];
        assert (a + b)[n..] == a[n..] + b;
        ClosedSuffix(a, n);
        FindTagsAppend(a[n..], b);
        assert FindTags(a + b) == [a[..n]] + (FindTags(a[n..]) + FindTags(b));
        Common.ConcatAssoc([a[..n]], FindTags(a[n..]), FindTags(b));
      case None =>
        assert (a + b)[1..] == a[1..] + b;
        ClosedSuffix(a, 1);
        FindTagsAppend(a[1..], b);
        assert FindTags(a + b) == FindTags(a[1..]) + FindTags(b);
    }
  }

  /** Two closed texts joined by a newline form a closed text. */
  lemma ClosedJoin(x: string, y: string)
    requires Closed(x) && Closed(y)
    ensures Closed(x + "\n" + y)
  {
    var s := x + "\n" + y;
    forall i | 0 <= i < |s| ensures !UnclosedAt(s, i) {
      if i < |x| {
        assert !UnclosedAt(x, i);
        assert s[i..] == x[i..] + ("\n" + y);
        OpenLenAppend(x[i..], "\n" + y);
        var p := OpenLen(x[i..]);
        if p > 0 {
          assert ']' in x[i..][p..];
          assert x[i..][p..] <= s[i..][p..];
        }
      } else if i == |x| {
        assert s[i..][0] == '\n';
      } else {
        assert !UnclosedAt(y, i - |x| - 1);
        assert s[i..] == y[i - |x| - 1..];
      }
    }
  }

  /** Dropping trailing whitespace keeps a text closed. */
  lemma ClosedDropSpaces(x: string, w: string)
    requires Closed(x + w)
    requires forall k :: 0 <= k < |w| ==> IsSpace(w[k])
    ensures Closed(x)
  {
    forall i | 0 <= i < |x| ensures !UnclosedAt(x, i) {
      var t := x[i..];
      assert !UnclosedAt(x + w, i);
      assert (x + w)[i..] == t + w;
      var p := OpenLen(t);
      if p > 0 {
        if w != [] { OpenLenAppend(t, w); } else { assert t + w == t; }
        assert ']' in (t + w)[p..];
        var j :| 0 <= j < |(t + w)[p..]| && (t + w)[p..][j] == ']';
        assert p + j < |t|;
        assert t[p..][j] == ']';
      }
    }
  }

  /** Whitespace around a closed text contributes no match. */
  lemma TrimKeepsTags(w1: string, r: string, w2: string)
    requires Closed(w1 + r + w2)
    requires forall k :: 0 <= k < |w1| ==> IsSpace(w1[k])
    requires forall k :: 0 <= k < |w2| ==> IsSpace(w2[k])
    ensures Closed(r)
    ensures FindTags(r) == FindTags(w1 + r + w2)
  {
    var s := w1 + r + w2;
    ClosedSuffix(s, |w1|);
    assert s[|w1|..] == r + w2;
    ClosedDropSpaces(r, w2);
    assert '[' !in w1 by {
      forall k | 0 <= k < |w1| ensures w1[k] != '[' { assert IsSpace(w1[k]); }
    }
    assert '[' !in w2 by {
      forall k | 0 <= k < |w2| ensures w2[k] != '[' { assert IsSpace(w2[k]); }
    }
    assert s == w1 + (r + w2);
    SkipPlain(w1, r + w2);
    FindTagsAppend(r, w2);
    SkipPlain(w2, []);
    assert w2 + [] == w2;
  }

  lemma StripLeftKeepsTags(s: string)
    requires Closed(s)
    ensures Closed(StripLeft(s))
    ensures FindTags(StripLeft(s)) == FindTags(s)
  {
    var l := StripLeft(s);
    var w := s[..|s| - |l|];
    assert s == w + l;
    ClosedSuffix(s, |w|);
    assert '[' !in w by {
      forall k | 0 <= k < |w| ensures w[k] != '[' { assert IsSpace(s[k]); }
    }
    SkipPlain(w, l);
  }

  lemma StripRightKeepsTags(s: string)
    requires Closed(s)
    ensures Closed(StripRight(s))
    ensures FindTags(StripRight(s)) == FindTags(s)
  {
    var r := StripRight(s);
    var w := s[|r|..];
    assert s == r + w;
    assert forall k :: 0 <= k < |w| ==> IsSpace(w[k]) by {
      forall k | 0 <= k < |w| ensures IsSpace(w[k]) { assert w[k] == s[|r| + k]; }
    }
    ClosedDropSpaces(r, w);
    FindTagsAppend(r, w);
    assert '[' !in w;
    SkipPlain(w, []);
    assert w + [] == w;
  }

  /** Stripping whitespace keeps the matches of a closed text. */
  lemma StripKeepsTags(s: string)
    requires Closed(s)
    ensures Closed(Strip(s))
    ensures FindTags(Strip(s)) == FindTags(s)
  {
    StripLeftKeepsTags(s);
    StripRightKeepsTags(StripLeft(s));
  }

  // ---------------------------------------------------------------------
  // list(dict.fromkeys(xs)): de-duplication in first-seen order
  // ---------------------------------------------------------------------

  predicate NoDuplicates<T(==)>(s: seq<T>) {
    forall i, j :: 0 <= i < j < |s| ==> s[i] != s[j]
  }

  /** `list(dict.fromkeys(s))` */
  function Dedup<T(==,!new)>(s: seq<T>): (d: seq<T>)
    ensures forall x :: x in d <==> x in s
    ensures NoDuplicates(d)
    ensures |d| <= |s|
  {
    if s == [] then []
    else
      var d := Dedup(s[..|s| - 1]);
      var x := s[|s| - 1];
      assert s == s[..|s| - 1] + [x];
      if x in d then d else d + [x]
  }

  /** Index of the first occurrence of `x` in `s`. */
  function FirstIndex<T(==)>(s: seq<T>, x: T): (i: nat)
    requires x in s
    ensures i < |s| && s[i] == x && x !in s[..i]
  {
    if s[0] == x then 0 else 1 + FirstIndex(s[1..], x)
  }

  lemma {:induction false} FirstIndexPrefix<T>(s: seq<T>, m: nat, x: T)
    requires m <= |s| && x in s[..m]
    ensures FirstIndex(s, x) == FirstIndex(s[..m], x)
  {
    var i := FirstIndex(s[..m], x);
    var j := FirstIndex(s, x);
    assert s[..m][..i] == s[..i];
  }

  /** `Dedup` lists the distinct elements in the order of their first
      occurrence. */
  lemma {:induction false} DedupFirstSeenOrder<T(!new)>(s: seq<T>)
    ensures forall i, j :: 0 <= i < j < |Dedup(s)| ==>
              FirstIndex(s, Dedup(s)[i]) < FirstIndex(s, Dedup(s)[j])
  {
    if s != [] {
      var init := s[..|s| - 1];
      var x := s[|s| - 1];
      DedupFirstSeenOrder(init);
      var d := Dedup(init);
      forall y | y in d ensures FirstIndex(s, y) == FirstIndex(init, y) {
        FirstIndexPrefix(s, |s| - 1, y);
      }
      if x !in d {
        assert x !in init;
        assert FirstIndex(s, x) == |s| - 1;
        forall y | y in d ensures FirstIndex(s, y) < |s| - 1 {
          assert FirstIndex(init, y) < |init|;
        }
      }
    }
  }

  /** Appending elements already seen does not change the de-duplicated
      list. */
  lemma {:induction false} DedupAppendSeen<T(!new)>(a: seq<T>, b: seq<T>)
    requires forall x :: x in b ==> x in a
    ensures Dedup(a + b) == Dedup(a)
    decreases |b|
  {
    if b == [] {
      assert a + b == a;
    } else {
      var b' := b[..|b| - 1];
      assert (a + b)[..|a + b| - 1] == a + b';
      DedupAppendSeen(a, b');
    }
  }

  /** De-duplication is idempotent. */
  lemma {:induction false} DedupIdempotent<T(!new)>(s: seq<T>)
    ensures Dedup(Dedup(s)) == Dedup(s)
  {
    DedupOfDistinct(Dedup(s));
  }

  lemma {:induction false} DedupOfDistinct<T(!new)>(s: seq<T>)
    requires NoDuplicates(s)
    ensures Dedup(s) == s
  {
    if s != [] {
      var init := s[..|s| - 1];
      DedupOfDistinct(init);
      assert s == init + [s[|s| - 1]];
    }
  }

  // ---------------------------------------------------------------------
  // format_response
  // ---------------------------------------------------------------------

  /** The answer already carries a references section. */
  predicate HasReferencesMarker(answer: string) {
    Contains(answer, "References:") || Contains(answer, "references:")
  }

  /** The line holds an opening of either kind (the per-line test). */
  predicate MentionsCitation(line: string) {
    Contains(line, "[node:") || Contains(line, "[chunk:")
  }

  /** Citations contributed by one line. */
  function LineTags(line: string): seq<string> {
    if MentionsCitation(line) then FindTags(line) else []
  }

  /** Citations collected from the lines, in order. */
  function LinesTags(lines: seq<string>): seq<string> {
    if lines == [] then [] else LineTags(lines[0]) + LinesTags(lines[1..])
  }

  lemma {:induction false} LinesTagsAppend(lines: seq<string>, line: string)
    ensures LinesTags(lines + [line]) == LinesTags(lines) + LineTags(line)
  {
    if lines == [] {
      assert lines + [line] == [line];
    } else {
      assert (lines + [line])[1..] == lines[1..] + [line];
      LinesTagsAppend(lines[1..], line);
    }
  }

  /** The "- tag" lines of the references block. */
  function Bullets(refs: seq<string>): (r: seq<string>)
    ensures |r| == |refs|
  {
    seq(|refs|, i requires 0 <= i < |refs| => "- " + refs[i])
  }

  const ReferencesHeader: string := "\n\nReferences:\n"

  /** What `format_response` returns for `answer`. */
  function FormatSpec(answer: string): (r: (string, seq<string>))
  {
    if HasReferencesMarker(answer) then (answer, Dedup(FindTags(answer)))
    else
      var citations := LinesTags(Split(answer, '\n'));
      if citations == [] then (answer, [])
      else
        var unique := Dedup(citations);
        (Strip(answer) + ReferencesHeader + Join(Bullets(unique), "\n"), unique)
  }

  /** `format_response(answer)`: scans the lines, collects their citations
      and, when there are any and no references section yet, appends one. */
  method FormatResponse(answer: string) returns (formatted: string, references: seq<string>)
    ensures (formatted, references) == FormatSpec(answer)
  {
    if HasReferencesMarker(answer) {
      return answer, Dedup(FindTags(answer));
    }
    var lines := Split(answer, '\n');
    var citations: seq<string> := [];
    var bodyLines: seq<string> := [];
    var i := 0;
    while i < |lines|
      invariant 0 <= i <= |lines|
      invariant citations == LinesTags(lines[..i])
      invariant bodyLines == lines[..i]
    {
      var line := lines[i];
      LinesTagsAppend(lines[..i], line);
      assert lines[..i + 1] == lines[..i] + [line];
      if MentionsCitation(line) {
        citations := citations + FindTags(line);
        bodyLines := bodyLines + [line];
      } else {
        bodyLines := bodyLines + [line];
      }
      i := i + 1;
    }
    assert lines[..i] == lines;
    if citations != [] {
      JoinSplit(answer, '\n');
      var body := Strip(Join(bodyLines, "\n"));
      var unique := Dedup(citations);
      return body + ReferencesHeader + Join(Bullets(unique), "\n"), unique;
    }
    return answer, [];
  }

  // ---------------------------------------------------------------------
  // Properties of format_response
  // ---------------------------------------------------------------------

  /** With a references marker the text is returned unchanged, with every
      tag of the whole text, de-duplicated. */
  lemma FormatWithMarker(answer: string)
    requires HasReferencesMarker(answer)
    ensures FormatSpec(answer).0 == answer
    ensures forall u :: u in FormatSpec(answer).1 <==> u in FindTags(answer)
    ensures NoDuplicates(FormatSpec(answer).1)
  {
  }

  /** The references list never has duplicates and consists of tags. */
  lemma {:induction false} FormatReferencesAreUniqueTags(answer: string)
    ensures NoDuplicates(FormatSpec(answer).1)
    ensures forall u :: u in FormatSpec(answer).1 ==> IsTag(u)
  {
    FindTagsAreTags(answer);
    LinesTagsAreTags(Split(answer, '\n'));
  }

  lemma {:induction false} LinesTagsAreTags(lines: seq<string>)
    ensures forall u :: u in LinesTags(lines) ==> IsTag(u)
  {
    if lines != [] {
      FindTagsAreTags(lines[0]);
      LinesTagsAreTags(lines[1..]);
    }
  }

  /** Without a marker and without citations the answer comes back as is,
      with no references. */
  lemma FormatWithoutCitations(answer: string)
    requires !HasReferencesMarker(answer)
    requires !Contains(answer, "[node:") && !Contains(answer, "[chunk:")
    ensures FormatSpec(answer) == (answer, [])
  {
    NoTagsInLines(answer);
  }

  lemma NoTagsInLines(answer: string)
    requires !Contains(answer, "[node:") && !Contains(answer, "[chunk:")
    ensures LinesTags(Split(answer, '\n')) == []
  {
    var lines := Split(answer, '\n');
    JoinSplit(answer, '\n');
    NoOpeningInParts(lines);
  }

  lemma {:induction false} NoOpeningInParts(lines: seq<string>)
    requires var s := Join(lines, "\n"); !Contains(s, "[node:") && !Contains(s, "[chunk:")
    ensures LinesTags(lines) == []
  {
    if lines != [] {
      var s := Join(lines, "\n");
      var rest := Join(lines[1..], "\n");
      if |lines| == 1 {
        assert s == lines[0];
        assert LinesTags(lines[1..]) == [];
      } else {
        var head := lines[0] + "\n";
        assert s == head + rest;
        PartsAvoid(lines[0], "\n" + rest, s);
        PartsAvoid(head, rest, s);
        NoOpeningInParts(lines[1..]);
      }
    }
  }

  /** The parts of a text without an opening have none either. */
  lemma PartsAvoid(a: string, b: string, s: string)
    requires s == a + b && !Contains(s, "[node:") && !Contains(s, "[chunk:")
    ensures !Contains(a, "[node:") && !Contains(a, "[chunk:")
    ensures !Contains(b, "[node:") && !Contains(b, "[chunk:")
  {
    assert a + b + [] == s && [] + a + b == s;
    if Contains(a, "[node:") { ContainsInConcat([], a, b, "[node:"); }
    if Contains(a, "[chunk:") { ContainsInConcat([], a, b, "[chunk:"); }
    if Contains(b, "[node:") { ContainsInConcat(a, b, [], "[node:"); }
    if Contains(b, "[chunk:") { ContainsInConcat(a, b, [], "[chunk:"); }
  }

  /** Every line of the text is closed. */
  predicate LinesClosed(s: string) {
    forall line :: line in Split(s, '\n') ==> Closed(line)
  }

  /** Index of the first occurrence of character `c`. */
  function IndexOfChar(s: string, c: char): (i: nat)
    requires c in s
    ensures i < |s| && s[i] == c && c !in s[..i]
  {
    if s[0] == c then 0 else 1 + IndexOfChar(s[1..], c)
  }

  lemma {:induction false} SplitCons(line: string, rest: string)
    requires '\n' !in line
    ensures Split(line + "\n" + rest, '\n') == [line] + Split(rest, '\n')
  {
    if line == [] {
      assert line + "\n" + rest == "\n" + rest;
      assert ("\n" + rest)[1..] == rest;
    } else {
      var s := line + "\n" + rest;
      assert s[1..] == line[1..] + "\n" + rest;
      SplitCons(line[1..], rest);
      assert [s[0]] + line[1..] == line;
    }
  }

  /** A line's contribution is all its matches: a line without an opening
      has none. */
  lemma LineTagsAreMatches(line: string)
    ensures LineTags(line) == FindTags(line)
  {
    if !MentionsCitation(line) {
      NoOpeningNoTags(line);
    }
  }

  /** Matches of two closed lines joined by a newline. */
  lemma LineThenRest(line: string, rest: string)
    requires Closed(line) && Closed(rest)
    ensures FindTags(line + "\n" + rest) == FindTags(line) + FindTags(rest)
    ensures Closed(line + "\n" + rest)
  {
    var tail := "\n" + rest;
    assert tail[0] == '\n' && tail[1..] == rest;
    FindTagsAppend(line, tail);
    ConcatAssoc(line, "\n", rest);
    NoOpeningAtHead(tail);
    ClosedJoin(line, rest);
  }

  /** When every line is closed, collecting citations line by line finds
      exactly the matches of the whole text, and the whole text is closed. */
  lemma {:induction false} LinesClosedTags(s: string)
    requires LinesClosed(s)
    ensures LinesTags(Split(s, '\n')) == FindTags(s)
    ensures Closed(s)
    decreases |s|
  {
    if '\n' !in s {
      SplitNoSep(s, '\n');
      assert s in Split(s, '\n');
      LineTagsAreMatches(s);
      assert LinesTags([s]) == LineTags(s) + LinesTags([]);
    } else {
      var i := IndexOfChar(s, '\n');
      var line, rest := s[..i], s[i + 1..];
      assert s == line + "\n" + rest;
      SplitCons(line, rest);
      var parts := Split(s, '\n');
      assert parts == [line] + Split(rest, '\n');
      assert parts[0] == line && parts[1..] == Split(rest, '\n');
      assert line in parts;
      assert LinesClosed(rest) by {
        forall l | l in Split(rest, '\n') ensures Closed(l) { assert l in parts; }
      }
      LinesClosedTags(rest);
      LineTagsAreMatches(line);
      LineThenRest(line, rest);
    }
  }

  /** The references block lists exactly the given tags. */
  lemma {:induction false} BulletsTags(refs: seq<string>)
    requires forall u :: u in refs ==> IsTag(u)
    ensures FindTags(Join(Bullets(refs), "\n")) == refs
  {
    if refs != [] {
      var u := refs[0];
      var b := Bullets(refs);
      assert Bullets(refs[1..]) == b[1..];
      assert '[' !in "- ";
      if |refs| == 1 {
        assert Join(b, "\n") == "- " + u;
        SkipPlain("- ", u);
        TagLenOfTag(u, []);
        assert u + [] == u;
        assert u[|u|..] == [];
      } else {
        var rest := Join(b[1..], "\n");
        assert Join(b, "\n") == "- " + (u + ("\n" + rest));
        SkipPlain("- ", u + ("\n" + rest));
        TagLenOfTag(u, "\n" + rest);
        assert (u + ("\n" + rest))[..|u|] == u;
        assert (u + ("\n" + rest))[|u|..] == "\n" + rest;
        assert ("\n" + rest)[1..] == rest;
        BulletsTags(refs[1..]);
      }
    }
  }

  /** The formatted text carries the marker. */
  lemma FormattedHasMarker(core: string, block: string)
    ensures HasReferencesMarker(core + ReferencesHeader + block)
  {
    assert Contains(ReferencesHeader, "References:") by {
      assert OccursAt(ReferencesHeader, "References:", 2);
    }
    ContainsInConcat(core, ReferencesHeader, block, "References:");
  }

  /** The matches of a formatted text are the body's followed by the
      listed references. */
  lemma FormattedTags(core: string, refs: seq<string>)
    requires Closed(core)
    requires forall u :: u in refs ==> IsTag(u)
    ensures FindTags(core + ReferencesHeader + Join(Bullets(refs), "\n")) == FindTags(core) + refs
  {
    var block := Join(Bullets(refs), "\n");
    var tail := ReferencesHeader + block;
    assert tail[0] == '\n';
    FindTagsAppend(core, tail);
    assert core + ReferencesHeader + block == core + tail;
    assert '[' !in ReferencesHeader;
    SkipPlain(ReferencesHeader, block);
    BulletsTags(refs);
  }

  /** `format_response` is idempotent on its own output when every line of
      the answer is closed: the second call takes the marker branch and
      finds the same text and the same references. */
  lemma FormatIdempotent(answer: string)
    requires LinesClosed(answer)
    ensures FormatSpec(FormatSpec(answer).0) == FormatSpec(answer)
  {
    var first := FormatSpec(answer);
    if !HasReferencesMarker(answer) {
      var citations := LinesTags(Split(answer, '\n'));
      if citations != [] {
        var unique := Dedup(citations);
        var core := Strip(answer);
        assert first == (core + ReferencesHeader + Join(Bullets(unique), "\n"), unique);
        LinesClosedTags(answer);
        StripKeepsTags(answer);
        FindTagsAreTags(answer);
        FormattedHasMarker(core, Join(Bullets(unique), "\n"));
        FormattedTags(core, unique);
        DedupAppendSeen(citations, unique);
        assert FormatSpec(first.0) == (first.0, Dedup(citations + unique));
      }
    }
  }

  /** A text without a newline is one line. */
  lemma SingleLineTags(s: string)
    requires '\n' !in s
    ensures LinesTags(Split(s, '\n')) == LineTags(s)
  {
    SplitNoSep(s, '\n');
    assert LinesTags([s]) == LineTags(s) + LinesTags([]);
  }

  /** A text with no whitespace at either end is its own strip. */
  lemma StripUnpadded(s: string)
    requires s != [] && !IsSpace(s[0]) && !IsSpace(s[|s| - 1])
    ensures Strip(s) == s
  {
  }

  /** What the second pass reads as one tag: an opening left open at the
      end of the answer, closed by the `]` of the first listed reference. */
  lemma GarbledIsTag(x: string, u: string)
    requires IsTag(u) && ']' !in x
    ensures IsTag("[node:" + x + ReferencesHeader + "- " + u)
  {
    var g := "[node:" + x + ReferencesHeader + "- " + u;
    assert g[..6] == "[node:";
    var q := OpenLen(u);
    forall m | 6 <= m < |g| - 1 ensures g[m] != ']' {
      if m < 6 + |x| {
        assert g[m] == x[m - 6];
      } else if m < 6 + |x| + |ReferencesHeader| + 2 {
        assert g[m] == (ReferencesHeader + "- ")[m - 6 - |x|];
      } else {
        var k := m - (6 + |x| + |ReferencesHeader| + 2);
        assert g[m] == u[k];
        if k >= q {
          assert u[k] != ']';
        } else {
          if q == 6 {
            assert u[..6] == "[node:" && u[k] == u[..6][k];
          } else {
            assert u[..7] == "[chunk:" && u[k] == u[..7][k];
          }
        }
      }
    }
  }

  /** The citations of the one-line answer `u + "[node:" + x`. */
  lemma UnclosedAnswerTags(u: string, x: string)
    requires IsTag(u) && ']' !in x
    ensures LineTags(u + "[node:" + x) == [u]
  {
    var t := "[node:" + x;
    var answer := u + "[node:" + x;
    assert answer == u + t;
    TagLenOfTag(u, t);
    assert answer[..|u|] == u && answer[|u|..] == t;
    assert ']' !in t;
    NoCloseNoTags(t);
    assert FindTags(answer) == [u] + FindTags(t);
    assert answer[|u|..|u| + 6] == "[node:";
    assert OccursAt(answer, "[node:", |u|);
  }

  lemma NewlineFree(u: string, x: string)
    requires '\n' !in x && '\n' !in u
    ensures '\n' !in u + "[node:" + x
  {
  }

  /** The first pass over `u + "[node:" + x` cites `u` only. */
  lemma UnclosedFirstPass(u: string, x: string)
    requires IsTag(u)
    requires x != [] && ']' !in x && '\n' !in x && '\n' !in u && !IsSpace(x[|x| - 1])
    requires !HasReferencesMarker(u + "[node:" + x)
    ensures FormatSpec(u + "[node:" + x)
         == (u + "[node:" + x + ReferencesHeader + "- " + u, [u])
  {
    var answer := u + "[node:" + x;
    NewlineFree(u, x);
    SingleLineTags(answer);
    UnclosedAnswerTags(u, x);
    assert answer[0] == u[0] == '[';
    assert answer[|answer| - 1] == x[|x| - 1];
    StripUnpadded(answer);
    assert Join(Bullets([u]), "\n") == "- " + u;
    assert Dedup([u]) == [u];
    assert LinesTags(Split(answer, '\n')) == [u];
    assert FormatSpec(answer) == (answer + ReferencesHeader + ("- " + u), [u]);
    ConcatAssoc(answer + ReferencesHeader, "- ", u);
  }

  /** The second pass finds `u` and the garbled tag. */
  lemma UnclosedSecondPassTags(u: string, x: string)
    requires IsTag(u) && ']' !in x
    ensures FindTags(u + "[node:" + x + ReferencesHeader + "- " + u)
         == [u, "[node:" + x + ReferencesHeader + "- " + u]
  {
    var g := "[node:" + x + ReferencesHeader + "- " + u;
    var formatted := u + "[node:" + x + ReferencesHeader + "- " + u;
    assert formatted == u + g;
    TagLenOfTag(u, g);
    assert formatted[..|u|] == u && formatted[|u|..] == g;
    GarbledIsTag(x, u);
    TagLenOfTag(g, []);
    assert g + [] == g;
    assert g[..|g|] == g && g[|g|..] == [];
    assert FindTags(g) == [g];
  }

  /** Without the closing condition the property fails: when the answer
      ends in an opening with no `]`, the appended references block closes
      it, and the second call reports a different, garbled reference. For
      instance `u = "[node:a]"`, `x = "b"`. */
  lemma FormatNotIdempotentOnUnclosedOpening(u: string, x: string)
    requires IsTag(u)
    requires x != [] && ']' !in x && '\n' !in x && '\n' !in u && !IsSpace(x[|x| - 1])
    requires !HasReferencesMarker(u + "[node:" + x)
    ensures FormatSpec(FormatSpec(u + "[node:" + x).0).1 != FormatSpec(u + "[node:" + x).1
  {
    var g := "[node:" + x + ReferencesHeader + "- " + u;
    var formatted := u + "[node:" + x + ReferencesHeader + "- " + u;
    UnclosedFirstPass(u, x);
    UnclosedSecondPassTags(u, x);
    FormattedHasMarker(u + "[node:" + x, "- " + u);
    ConcatAssoc(u + "[node:" + x + ReferencesHeader, "- ", u);
    assert FormatSpec(formatted).1 == Dedup([u, g]);
    assert |g| > |u|;
    assert Dedup([u, g]) == [u, g] by {
      assert [u, g][..1] == [u];
    }
  }
}
