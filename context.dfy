/** The pure text helpers around the answering engine of core/graphrag.py
    (and their twins in core/graphrag_solid.py): the context rendered for
    the prompt, the prompt itself, the greeting test and the test for an
    answer that admits it found nothing.

    Scores are rendered by `fmt`, which stands for the `:.3f` format of a
    float: the model does not format floating point. */
module Context {
  import opened Common
  import opened Retrieval

  /** At most this many nodes and this many chunks are rendered. */
  const MaxItems: nat := 8

  /** `items[:n]` */
  function Take<T>(items: seq<T>, n: nat): (r: seq<T>)
    ensures |r| == Min(|items|, n)
    ensures r == items[..|r|]
  {
    if |items| <= n then items else items[..n]
  }

  /** An entry's citation tag followed by its rendered score. */
  function TagLine(kind: string, h: Hit, fmt: real -> string): string {
    "[" + kind + ":" + h.id + "] score=" + fmt(h.similarity)
  }

  /** The three lines one entry contributes: its tag line, its text, and an
      empty line. */
  function EntryLines(kind: string, h: Hit, fmt: real -> string): seq<string> {
    [TagLine(kind, h, fmt), h.text, ""]
  }

  /** The lines of all entries, in order. */
  function SectionLines(kind: string, items: seq<Hit>, fmt: real -> string): seq<string> {
    if items == [] then []
    else EntryLines(kind, items[0], fmt) + SectionLines(kind, items[1..], fmt)
  }

  lemma {:induction false} SectionLinesAppend(kind: string, items: seq<Hit>, h: Hit, fmt: real -> string)
    ensures SectionLines(kind, items + [h], fmt) == SectionLines(kind, items, fmt) + EntryLines(kind, h, fmt)
  {
    if items == [] {
      assert items + [h] == [h];
    } else {
      assert (items + [h])[1..] == items[1..] + [h];
      SectionLinesAppend(kind, items[1..], h, fmt);
    }
  }

  /** Entry `k` occupies lines `3k`, `3k + 1` and `3k + 2` of its section. */
  lemma {:induction false} SectionLinesShape(kind: string, items: seq<Hit>, fmt: real -> string)
    ensures |SectionLines(kind, items, fmt)| == 3 * |items|
    ensures forall k :: 0 <= k < |items| ==>
              && SectionLines(kind, items, fmt)[3 * k] == TagLine(kind, items[k], fmt)
              && SectionLines(kind, items, fmt)[3 * k + 1] == items[k].text
              && SectionLines(kind, items, fmt)[3 * k + 2] == ""
  {
    SectionLinesLength(kind, items, fmt);
    forall k | 0 <= k < |items|
      ensures && SectionLines(kind, items, fmt)[3 * k] == TagLine(kind, items[k], fmt)
              && SectionLines(kind, items, fmt)[3 * k + 1] == items[k].text
              && SectionLines(kind, items, fmt)[3 * k + 2] == ""
    {
      SectionLinesAt(kind, items, fmt, k);
    }
  }

  /** Three lines per entry. */
  lemma {:induction false} SectionLinesLength(kind: string, items: seq<Hit>, fmt: real -> string)
    ensures |SectionLines(kind, items, fmt)| == 3 * |items|
  {
    if items != [] {
      SectionLinesLength(kind, items[1..], fmt);
    }
  }

  /** The three lines of entry `k`. */
  lemma {:induction false} SectionLinesAt(kind: string, items: seq<Hit>, fmt: real -> string, k: nat)
    requires k < |items|
    ensures 3 * k + 2 < |SectionLines(kind, items, fmt)|
    ensures SectionLines(kind, items, fmt)[3 * k] == TagLine(kind, items[k], fmt)
    ensures SectionLines(kind, items, fmt)[3 * k + 1] == items[k].text
    ensures SectionLines(kind, items, fmt)[3 * k + 2] == ""
  {
    SectionLinesLength(kind, items, fmt);
    var rest := SectionLines(kind, items[1..], fmt);
    var all := SectionLines(kind, items, fmt);
    assert all == EntryLines(kind, items[0], fmt) + rest;
    if k > 0 {
      SectionLinesAt(kind, items[1..], fmt, k - 1);
      assert items[1..][k - 1] == items[k];
      assert all[3 * k] == rest[3 * (k - 1)];
      assert all[3 * k + 1] == rest[3 * (k - 1) + 1];
      assert all[3 * k + 2] == rest[3 * (k - 1) + 2];
    }
  }

  /** `"\n".join(f"[neighbor:{nid}]" for nid in neighbors)` */
  function NeighborTags(neighbors: seq<string>): (r: seq<string>)
    ensures |r| == |neighbors|
    ensures forall k :: 0 <= k < |r| ==> r[k] == "[neighbor:" + neighbors[k] + "]"
  {
    seq(|neighbors|, k requires 0 <= k < |neighbors| => "[neighbor:" + neighbors[k] + "]")
  }

  const NodesHeader: string := "=== Nodes ==="
  const ChunksHeader: string := "=== Code Chunks ==="
  const NeighborsHeader: string := "=== Neighbor Nodes ==="

  /** The neighbour section: present only for a non-empty neighbour list. */
  function NeighborLines(neighbors: seq<string>): seq<string> {
    if neighbors == [] then [] else [NeighborsHeader, Join(NeighborTags(neighbors), "\n")]
  }

  /** The `parts` list `build_context` joins with newlines. */
  function ContextParts(nodes: seq<Hit>, chunks: seq<Hit>, neighbors: seq<string>, fmt: real -> string): seq<string> {
    [NodesHeader] + SectionLines("node", Take(nodes, MaxItems), fmt)
    + [ChunksHeader] + SectionLines("chunk", Take(chunks, MaxItems), fmt)
    + NeighborLines(neighbors)
  }

  /** `build_context(nodes, chunks, neighbors)` */
  method BuildContext(nodes: seq<Hit>, chunks: seq<Hit>, neighbors: seq<string>, fmt: real -> string)
    returns (context: string)
    ensures context == Join(ContextParts(nodes, chunks, neighbors, fmt), "\n")
  {
    var parts: seq<string> := [NodesHeader];
    var shownNodes := Take(nodes, MaxItems);
    var i := 0;
    while i < |shownNodes|
      invariant 0 <= i <= |shownNodes|
      invariant parts == [NodesHeader] + SectionLines("node", shownNodes[..i], fmt)
    {
      var n := shownNodes[i];
      AppendEntry([NodesHeader], shownNodes, i, "node", fmt);
      parts := parts + [TagLine("node", n, fmt)];
      parts := parts + [n.text];
      parts := parts + [""];
      i := i + 1;
    }
    assert shownNodes[..i] == shownNodes;
    parts := parts + [ChunksHeader];
    var prefix := parts;
    var shownChunks := Take(chunks, MaxItems);
    var j := 0;
    while j < |shownChunks|
      invariant 0 <= j <= |shownChunks|
      invariant parts == prefix + SectionLines("chunk", shownChunks[..j], fmt)
    {
      var c := shownChunks[j];
      AppendEntry(prefix, shownChunks, j, "chunk", fmt);
      parts := parts + [TagLine("chunk", c, fmt)];
      parts := parts + [c.text];
      parts := parts + [""];
      j := j + 1;
    }
    assert shownChunks[..j] == shownChunks;
    ghost var body := parts;
    if neighbors != [] {
      parts := parts + [NeighborsHeader];
      parts := parts + [Join(NeighborTags(neighbors), "\n")];
    }
    AppendNeighbors(body, neighbors, parts);
    context := Join(parts, "\n");
  }

  /** Appending an entry's three lines extends the section by that entry. */
  lemma AppendEntry(prefix: seq<string>, items: seq<Hit>, i: nat, kind: string, fmt: real -> string)
    requires i < |items|
    ensures prefix + SectionLines(kind, items[..i], fmt) + [TagLine(kind, items[i], fmt)] + [items[i].text] + [""]
         == prefix + SectionLines(kind, items[..i + 1], fmt)
  {
    assert items[..i + 1] == items[..i] + [items[i]];
    SectionLinesAppend(kind, items[..i], items[i], fmt);
  }

  /** The neighbour lines, appended only when there are neighbours. */
  lemma AppendNeighbors(body: seq<string>, neighbors: seq<string>, parts: seq<string>)
    requires neighbors == [] ==> parts == body
    requires neighbors != [] ==> parts == body + [NeighborsHeader] + [Join(NeighborTags(neighbors), "\n")]
    ensures parts == body + NeighborLines(neighbors)
  {
  }

  /** Positions in `[h1] + xs + [h2] + ys + zs`. */
  lemma FiveParts(h1: string, xs: seq<string>, h2: string, ys: seq<string>, zs: seq<string>)
    ensures var p := [h1] + xs + [h2] + ys + zs;
            && |p| == 2 + |xs| + |ys| + |zs|
            && p[0] == h1
            && (forall i :: 0 <= i < |xs| ==> p[1 + i] == xs[i])
            && p[1 + |xs|] == h2
            && (forall i :: 0 <= i < |ys| ==> p[2 + |xs| + i] == ys[i])
            && (forall i :: 0 <= i < |zs| ==> p[2 + |xs| + |ys| + i] == zs[i])
  {
  }

  /** The context parts are the nodes header, the node lines, the chunks
      header, the chunk lines and the neighbour lines. */
  lemma ContextSections(nodes: seq<Hit>, chunks: seq<Hit>, neighbors: seq<string>, fmt: real -> string)
    ensures var parts := ContextParts(nodes, chunks, neighbors, fmt);
            var ns := SectionLines("node", Take(nodes, MaxItems), fmt);
            var cs := SectionLines("chunk", Take(chunks, MaxItems), fmt);
            && |parts| == 2 + |ns| + |cs| + |NeighborLines(neighbors)|
            && parts[0] == NodesHeader
            && (forall i :: 0 <= i < |ns| ==> parts[1 + i] == ns[i])
            && parts[1 + |ns|] == ChunksHeader
            && (forall i :: 0 <= i < |cs| ==> parts[2 + |ns| + i] == cs[i])
            && (neighbors != [] ==> parts[2 + |ns| + |cs|] == NeighborsHeader)
  {
    var ns := SectionLines("node", Take(nodes, MaxItems), fmt);
    var cs := SectionLines("chunk", Take(chunks, MaxItems), fmt);
    var zs := NeighborLines(neighbors);
    FiveParts(NodesHeader, ns, ChunksHeader, cs, zs);
    if neighbors != [] {
      assert zs[0] == NeighborsHeader;
    }
  }

  /** The context has the nodes header first, three lines for each of the
      first eight nodes, the chunks header, three lines for each of the first
      eight chunks, and two neighbour lines exactly when there are
      neighbours, the first of them the neighbour header. */
  lemma ContextLayout(nodes: seq<Hit>, chunks: seq<Hit>, neighbors: seq<string>, fmt: real -> string)
    ensures var parts := ContextParts(nodes, chunks, neighbors, fmt);
            var a := Min(|nodes|, MaxItems);
            var b := Min(|chunks|, MaxItems);
            && |parts| == 2 + 3 * a + 3 * b + (if neighbors == [] then 0 else 2)
            && parts[0] == NodesHeader
            && parts[1 + 3 * a] == ChunksHeader
            && (neighbors != [] ==> parts[2 + 3 * a + 3 * b] == NeighborsHeader)
  {
    ContextSections(nodes, chunks, neighbors, fmt);
    SectionLinesShape("node", Take(nodes, MaxItems), fmt);
    SectionLinesShape("chunk", Take(chunks, MaxItems), fmt);
  }

  /** Node `k`, for `k` below eight, is rendered as its tag line and then its
      text, right after the lines of the nodes before it. */
  lemma ContextNodeLines(nodes: seq<Hit>, chunks: seq<Hit>, neighbors: seq<string>, fmt: real -> string, k: nat)
    requires k < Min(|nodes|, MaxItems)
    ensures var parts := ContextParts(nodes, chunks, neighbors, fmt);
            && 2 + 3 * k < |parts|
            && parts[1 + 3 * k] == TagLine("node", nodes[k], fmt)
            && parts[2 + 3 * k] == nodes[k].text
  {
    var shown := Take(nodes, MaxItems);
    ContextSections(nodes, chunks, neighbors, fmt);
    SectionLinesShape("node", shown, fmt);
    assert shown[k] == nodes[k];
  }

  /** Chunk `k`, for `k` below eight, is rendered as its tag line and then
      its text, after the chunks header. */
  lemma ContextChunkLines(nodes: seq<Hit>, chunks: seq<Hit>, neighbors: seq<string>, fmt: real -> string, k: nat)
    requires k < Min(|chunks|, MaxItems)
    ensures var parts := ContextParts(nodes, chunks, neighbors, fmt);
            var a := Min(|nodes|, MaxItems);
            && 3 + 3 * a + 3 * k < |parts|
            && parts[2 + 3 * a + 3 * k] == TagLine("chunk", chunks[k], fmt)
            && parts[3 + 3 * a + 3 * k] == chunks[k].text
  {
    var shown := Take(chunks, MaxItems);
    var ns := SectionLines("node", Take(nodes, MaxItems), fmt);
    var cs := SectionLines("chunk", shown, fmt);
    ContextSections(nodes, chunks, neighbors, fmt);
    SectionLinesShape("node", Take(nodes, MaxItems), fmt);
    SectionLinesShape("chunk", shown, fmt);
    assert shown[k] == chunks[k];
    var parts := ContextParts(nodes, chunks, neighbors, fmt);
    assert |ns| == 3 * Min(|nodes|, MaxItems);
    assert parts[2 + |ns| + 3 * k] == cs[3 * k];
    assert parts[2 + |ns| + (3 * k + 1)] == cs[3 * k + 1];
  }

  /** Entries past the eighth never reach the context. */
  lemma ContextIgnoresExtraEntries(nodes: seq<Hit>, chunks: seq<Hit>, neighbors: seq<string>, fmt: real -> string)
    ensures ContextParts(nodes, chunks, neighbors, fmt)
         == ContextParts(Take(nodes, MaxItems), Take(chunks, MaxItems), neighbors, fmt)
  {
    assert Take(Take(nodes, MaxItems), MaxItems) == Take(nodes, MaxItems);
    assert Take(Take(chunks, MaxItems), MaxItems) == Take(chunks, MaxItems);
  }

  // ---------------------------------------------------------------------
  // The prompt (graphrag_solid `_build_prompt`, same text as `PROMPT`)
  // ---------------------------------------------------------------------

  const PromptHead: string :=
    "\nYou are a codebase analysis assistant.\n\n"
    + "Use only the following context. Format your response as follows:\n"
    + "1. First, provide a comprehensive answer in natural sentence structure, weaving in the information naturally.\n"
    + "2. Then, on a new line with \"References:\", list all the citations used in the format [node:ID] or [chunk:ID] with their locations.\n\n"
    + "If information is missing, say:\n"
    + "\"The context does not contain the required information.\"\n\n"
    + "---------------------\nCONTEXT:\n"
  const PromptMiddle: string := "\n---------------------\n\nQuestion:\n"
  const PromptTail: string := "\n\nAnswer:\n"

  /** The prompt: fixed instructions, then the context, then the
      question. */
  function BuildPrompt(context: string, question: string): (prompt: string)
    ensures StartsWith(prompt, PromptHead + context + PromptMiddle)
    ensures EndsWith(prompt, question + PromptTail)
    ensures |prompt| == |PromptHead| + |context| + |PromptMiddle| + |question| + |PromptTail|
  {
    var head := PromptHead + context + PromptMiddle;
    var tail := question + PromptTail;
    ConcatAffixes(head, tail);
    head + tail
  }

  /** The prompt determines its context and question: different inputs
      never give the same prompt. */
  lemma BuildPromptInjective(c1: string, q1: string, c2: string, q2: string)
    requires BuildPrompt(c1, q1) == BuildPrompt(c2, q2)
    requires |c1| == |c2|
    ensures c1 == c2 && q1 == q2
  {
    var p := BuildPrompt(c1, q1);
    var n := |PromptHead + c1 + PromptMiddle|;
    assert PromptHead + c1 + PromptMiddle == p[..n] == PromptHead + c2 + PromptMiddle;
    assert c1 == (PromptHead + c1 + PromptMiddle)[|PromptHead|..|PromptHead| + |c1|];
    assert c2 == (PromptHead + c2 + PromptMiddle)[|PromptHead|..|PromptHead| + |c2|];
    var t := |q1 + PromptTail|;
    assert q1 + PromptTail == p[|p| - t..] == q2 + PromptTail;
    assert q1 == (q1 + PromptTail)[..|q1|];
    assert q2 == (q2 + PromptTail)[..|q2|];
  }

  // ---------------------------------------------------------------------
  // is_greeting
  // ---------------------------------------------------------------------

  const Greetings: seq<string> := [
    "hi", "hello", "hey", "greetings", "good morning", "good afternoon",
    "good evening", "howdy", "what's up", "sup", "yo"]

  /** Some phrase of `phrases` occurs in `text`. */
  function AnyOccurs(phrases: seq<string>, text: string): (r: bool)
    ensures r <==> exists k :: 0 <= k < |phrases| && Contains(text, phrases[k])
  {
    if phrases == [] then false
    else Contains(text, phrases[0]) || AnyOccurs(phrases[1..], text)
  }

  /** `is_greeting(question)`: some greeting phrase is a substring of the
      stripped, lower-cased question. */
  function IsGreeting(question: string): (r: bool)
    ensures r <==> exists k :: 0 <= k < |Greetings| && Contains(Lower(Strip(question)), Greetings[k])
  {
    AnyOccurs(Greetings, Lower(Strip(question)))
  }

  lemma ThisContainsHi(s: string)
    requires Contains(s, "this")
    ensures Contains(s, "hi")
  {
    var i :| 0 <= i <= |s| - 4 && OccursAt(s, "this", i);
    assert s[i..i + 4] == "this";
    assert s[i + 1] == 'h' && s[i + 2] == 'i' by {
      assert s[i + 1] == s[i..i + 4][1] && s[i + 2] == s[i..i + 4][2];
    }
    assert s[i + 1..i + 3] == "hi";
    assert OccursAt(s, "hi", i + 1);
  }

  /** The test is a substring test, not a word test: a question about
      "this" function is taken for a greeting because "this" contains
      "hi". */
  lemma QuestionWithThisIsGreeting(question: string)
    requires Contains(Lower(Strip(question)), "this")
    ensures IsGreeting(question)
  {
    ThisContainsHi(Lower(Strip(question)));
    assert Greetings[0] == "hi";
  }

  lemma LowerConcat(a: string, b: string)
    ensures Lower(a + b) == Lower(a) + Lower(b)
  {
  }

  /** A phrase occurring in a text still occurs once more text follows. */
  lemma AnyOccursExtend(phrases: seq<string>, s: string, more: string)
    requires AnyOccurs(phrases, s)
    ensures AnyOccurs(phrases, s + more)
  {
    var k :| 0 <= k < |phrases| && Contains(s, phrases[k]);
    ContainsInConcat([], s, more, phrases[k]);
    assert [] + s + more == s + more;
  }

  /** Appending more non-blank text to a greeting keeps it a greeting. */
  lemma GreetingSurvivesExtension(question: string, more: string)
    requires IsGreeting(question)
    requires forall k :: 0 <= k < |more| ==> !IsSpace(more[k])
    requires question != [] && !IsSpace(question[|question| - 1])
    ensures IsGreeting(question + more)
  {
    StripExtend(question, more);
    LowerConcat(Strip(question), more);
    AnyOccursExtend(Greetings, Lower(Strip(question)), Lower(more));
  }

  lemma StripExtend(s: string, more: string)
    requires forall k :: 0 <= k < |more| ==> !IsSpace(more[k])
    requires s != [] && !IsSpace(s[|s| - 1])
    ensures Strip(s + more) == Strip(s) + more
  {
    var t := s + more;
    var l := StripLeft(s);
    assert l != [];
    StripLeftExtend(s, more);
    assert StripRight(l) == l;
    assert StripRight(l + more) == l + more by {
      assert (l + more)[|l + more| - 1] == if more == [] then l[|l| - 1] else more[|more| - 1];
    }
  }

  lemma {:induction false} StripLeftExtend(s: string, more: string)
    requires s != [] && !IsSpace(s[|s| - 1])
    ensures StripLeft(s + more) == StripLeft(s) + more
    decreases |s|
  {
    if IsSpace(s[0]) {
      assert (s + more)[1..] == s[1..] + more;
      StripLeftExtend(s[1..], more);
    }
  }

  // ---------------------------------------------------------------------
  // Negative markers
  // ---------------------------------------------------------------------

  const NegativeMarkers: seq<string> := [
    "The context does not contain the required information",
    "I don't have enough information",
    "No relevant information found",
    "Unable to find specific information"]

  /** `any(marker in text for marker in negative_markers)` */
  function HasNegativeMarker(text: string): (r: bool)
    ensures r <==> exists k :: 0 <= k < |NegativeMarkers| && Contains(text, NegativeMarkers[k])
  {
    AnyOccurs(NegativeMarkers, text)
  }

  /** The refusal sentence the prompt asks for is detected. */
  lemma PromptRefusalIsNegative(answer: string)
    requires Contains(answer, "\"" + NegativeMarkers[0] + ".\"")
    ensures HasNegativeMarker(answer)
  {
    var m := NegativeMarkers[0];
    var q := "\"" + m + ".\"";
    var i :| 0 <= i <= |answer| - |q| && OccursAt(answer, q, i);
    assert q[1..1 + |m|] == m;
    assert answer[i + 1..i + 1 + |m|] == answer[i..i + |q|][1..1 + |m|];
    assert OccursAt(answer, m, i + 1);
  }
}
