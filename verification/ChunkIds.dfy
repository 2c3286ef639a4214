/**
  Chunk ids and the removal of repeats. An id is a hash of a chunk's fields joined by line breaks; the model
  keeps the joined text itself. Keywords and text share the separator, so different chunks can share an id.
 */
module ChunkIds {
  import opened Text
  import opened NormalText
  import opened Words
  import opened Keywords

  datatype Kind = Narrative | Fact | Faq

  datatype Chunk = Chunk(id: string, section: string, text: string, kind: Kind, keywords: seq<string>)

  function KindName(kind: Kind): string {
    match kind
    case Narrative => "narrative"
    case Fact => "fact"
    case Faq => "faq"
  }

  /** A line before the rest. */
  function Line(first: string, rest: string): string {
    first + ("\n" + rest)
  }

  function IdOf(site: string, path: string, section: string, kind: Kind, keywords: seq<string>, text: string): string {
    Line(site, Line(path, Line(section, Line(KindName(kind), Line(Join(keywords, "\n"), text)))))
  }

  ghost predicate IsFrom(site: string, path: string, c: Chunk) {
    c.id == IdOf(site, path, c.section, c.kind, c.keywords, c.text)
  }

  // ----- Which chunks share an id

  predicate EndsWith(s: string, t: string) {
    |t| <= |s| && s[|s| - |t|..] == t
  }

  lemma LineEndsWith(first: string, rest: string, t: string)
    requires EndsWith(rest, t)
    ensures EndsWith(Line(first, rest), t)
  {
  }

  lemma IdEndsWithText(site: string, path: string, c: Chunk)
    requires IsFrom(site, path, c)
    ensures EndsWith(c.id, c.text)
  {
    var d := Line(Join(c.keywords, "\n"), c.text);
    LineEndsWith(Join(c.keywords, "\n"), c.text, c.text);
    LineEndsWith(KindName(c.kind), d, c.text);
    LineEndsWith(c.section, Line(KindName(c.kind), d), c.text);
    LineEndsWith(path, Line(c.section, Line(KindName(c.kind), d)), c.text);
    LineEndsWith(site, Line(path, Line(c.section, Line(KindName(c.kind), d))), c.text);
  }

  /** Of two chunks with one id, the shorter text ends the longer one. */
  lemma TextsNest(site: string, path: string, a: Chunk, b: Chunk)
    requires IsFrom(site, path, a) && IsFrom(site, path, b) && a.id == b.id
    ensures Contains(a.text, b.text) <==> |b.text| <= |a.text|
  {
    IdEndsWithText(site, path, a);
    IdEndsWithText(site, path, b);
    if |b.text| <= |a.text| {
      var n := |a.text| - |b.text|;
      assert a.text == a.text[..n] + b.text + "";
      ContainsAt(a.text[..n], b.text, "");
    }
  }

  lemma SameFirstLine(first: string, s: string, t: string)
    requires Line(first, s) == Line(first, t)
    ensures s == t
  {
    assert s == Line(first, s)[|first| + 1..];
    assert t == Line(first, t)[|first| + 1..];
  }

  lemma FirstLines(a: string, s: string, b: string, t: string)
    requires OnOneLine(a) && OnOneLine(b) && Line(a, s) == Line(b, t)
    ensures a == b && s == t
  {
    var whole := Line(a, s);
    assert whole[|a|] == '\n' && whole[|b|] == '\n';
    assert forall i :: 0 <= i < |a| ==> whole[i] == a[i];
    assert forall i :: 0 <= i < |b| ==> whole[i] == b[i];
    assert a == whole[..|a|] && b == whole[..|b|];
    SameFirstLine(a, s, t);
  }

  lemma {:induction false} LinesAreInjective(a: string, b: string)
    requires Lines(a) == Lines(b)
    ensures a == b
  {
    LinesRejoin(a);
    LinesRejoin(b);
  }

  /** An empty keyword list still contributes a line. */
  function KeywordLines(keywords: seq<string>): seq<string> {
    if keywords == [] then [""] else keywords
  }

  lemma LinesOfKeywords(keywords: seq<string>)
    requires forall i :: 0 <= i < |keywords| ==> OnOneLine(keywords[i])
    ensures Lines(Join(keywords, "\n")) == KeywordLines(keywords)
  {
    if keywords != [] {
      LinesOfJoin(keywords);
    }
  }

  lemma SameTail(a: Chunk, b: Chunk)
    requires AreKeywords(a.keywords) && AreKeywords(b.keywords)
    ensures Line(Join(a.keywords, "\n"), a.text) == Line(Join(b.keywords, "\n"), b.text)
            <==> KeywordLines(a.keywords) + Lines(a.text) == KeywordLines(b.keywords) + Lines(b.text)
  {
    LinesOfKeywords(a.keywords);
    LinesOfKeywords(b.keywords);
    LinesConcat(Join(a.keywords, "\n"), a.text);
    LinesConcat(Join(b.keywords, "\n"), b.text);
    if Lines(Line(Join(a.keywords, "\n"), a.text)) == Lines(Line(Join(b.keywords, "\n"), b.text)) {
      LinesAreInjective(Line(Join(a.keywords, "\n"), a.text), Line(Join(b.keywords, "\n"), b.text));
    }
  }

  /**
    Two chunks of a document share an id exactly when they agree in section and kind and their keywords followed by
    their lines of text are one and the same list.
   */
  lemma IdsMeet(site: string, path: string, a: Chunk, b: Chunk)
    requires IsFrom(site, path, a) && IsFrom(site, path, b)
    requires OnOneLine(a.section) && OnOneLine(b.section) && AreKeywords(a.keywords) && AreKeywords(b.keywords)
    ensures a.id == b.id <==>
            && a.section == b.section && a.kind == b.kind
            && KeywordLines(a.keywords) + Lines(a.text) == KeywordLines(b.keywords) + Lines(b.text)
  {
    SameTail(a, b);
    if a.id == b.id {
      IdsAgree(site, path, a, b);
    }
  }

  lemma IdsAgree(site: string, path: string, a: Chunk, b: Chunk)
    requires IsFrom(site, path, a) && IsFrom(site, path, b) && a.id == b.id
    requires OnOneLine(a.section) && OnOneLine(b.section)
    ensures a.section == b.section && a.kind == b.kind
    ensures Line(Join(a.keywords, "\n"), a.text) == Line(Join(b.keywords, "\n"), b.text)
  {
    var s, t := Line(Join(a.keywords, "\n"), a.text), Line(Join(b.keywords, "\n"), b.text);
    var ka, kb := KindName(a.kind), KindName(b.kind);
    SameFirstLine(site, Line(path, Line(a.section, Line(ka, s))), Line(path, Line(b.section, Line(kb, t))));
    SameFirstLine(path, Line(a.section, Line(ka, s)), Line(b.section, Line(kb, t)));
    FirstLines(a.section, Line(ka, s), b.section, Line(kb, t));
    FirstLines(ka, s, kb, t);
    assert ka[0] == kb[0] && ka[1] == kb[1];
  }

  // ----- Removing repeats

  predicate HasText(c: Chunk) {
    Trim(c.text) != ""
  }

  predicate HasId(chunks: seq<Chunk>, id: string) {
    exists i :: 0 <= i < |chunks| && chunks[i].id == id
  }

  function Dedupe(chunks: seq<Chunk>): seq<Chunk> {
    if chunks == [] then []
    else
      var front, last := Dedupe(chunks[..|chunks| - 1]), chunks[|chunks| - 1];
      if !HasText(last) || HasId(front, last.id) then front else front + [last]
  }

  method DedupeChunks(items: seq<Chunk>) returns (chunks: seq<Chunk>)
    ensures chunks == Dedupe(items)
  {
    var seen: set<string> := {};
    chunks := [];
    for i := 0 to |items|
      invariant chunks == Dedupe(items[..i])
      invariant forall id :: id in seen <==> HasId(chunks, id)
    {
      assert items[..i + 1][..i] == items[..i];
      if HasText(items[i]) && items[i].id !in seen {
        ghost var before := chunks;
        seen := seen + {items[i].id};
        chunks := chunks + [items[i]];
        HasIdAppend(before, items[i]);
      }
    }
    assert items[..|items|] == items;
  }

  lemma HasIdAppend(chunks: seq<Chunk>, c: Chunk)
    ensures forall id :: HasId(chunks + [c], id) <==> HasId(chunks, id) || id == c.id
  {
    var all := chunks + [c];
    assert all[|chunks|] == c;
    forall id | HasId(chunks, id) ensures HasId(all, id) {
      var i :| 0 <= i < |chunks| && chunks[i].id == id;
      assert all[i].id == id;
    }
  }

  /** Where an id first occurs on a chunk with text. */
  function FirstAt(chunks: seq<Chunk>, id: string): (i: nat)
    ensures i <= |chunks| && (i < |chunks| ==> HasText(chunks[i]) && chunks[i].id == id)
    ensures forall j :: 0 <= j < i ==> !(HasText(chunks[j]) && chunks[j].id == id)
  {
    if chunks == [] then 0
    else
      var n := |chunks| - 1;
      var i := FirstAt(chunks[..n], id);
      if i < n then i else if HasText(chunks[n]) && chunks[n].id == id then n else n + 1
  }

  predicate IsFirst(chunks: seq<Chunk>, i: nat) {
    i < |chunks| && HasText(chunks[i]) && FirstAt(chunks, chunks[i].id) == i
  }

  lemma {:induction false} IdsAreKept(chunks: seq<Chunk>, id: string)
    ensures HasId(Dedupe(chunks), id) <==> FirstAt(chunks, id) < |chunks|
  {
    if chunks != [] {
      var n := |chunks| - 1;
      IdsAreKept(chunks[..n], id);
      IdsAreKept(chunks[..n], chunks[n].id);
      HasIdAppend(Dedupe(chunks[..n]), chunks[n]);
    }
  }

  ghost predicate IsKept(chunks: seq<Chunk>, c: Chunk) {
    exists i: nat :: IsFirst(chunks, i) && chunks[i] == c
  }

  lemma KeptInFront(chunks: seq<Chunk>, c: Chunk)
    requires chunks != []
    ensures var n := |chunks| - 1;
            IsKept(chunks, c) <==> IsKept(chunks[..n], c) || (IsFirst(chunks, n) && chunks[n] == c)
  {
    var n := |chunks| - 1;
    forall i | 0 <= i < n ensures IsFirst(chunks, i) <==> IsFirst(chunks[..n], i) {
    }
    if IsKept(chunks[..n], c) {
      var i: nat :| IsFirst(chunks[..n], i) && chunks[..n][i] == c;
      assert IsFirst(chunks, i) && chunks[i] == c;
    }
    if IsKept(chunks, c) {
      var i: nat :| IsFirst(chunks, i) && chunks[i] == c;
      assert i < n ==> IsFirst(chunks[..n], i) && chunks[..n][i] == c;
    }
  }

  /** A chunk is in the output exactly when it is the first with text that has its id. */
  lemma {:induction false} DedupeHolds(chunks: seq<Chunk>, c: Chunk)
    ensures c in Dedupe(chunks) <==> exists i: nat :: IsFirst(chunks, i) && chunks[i] == c
  {
    if chunks != [] {
      var n := |chunks| - 1;
      DedupeHolds(chunks[..n], c);
      assert c in Dedupe(chunks[..n]) <==> IsKept(chunks[..n], c);
      IdsAreKept(chunks[..n], chunks[n].id);
      KeptInFront(chunks, c);
      assert IsKept(chunks, c) <==> exists i: nat :: IsFirst(chunks, i) && chunks[i] == c;
    }
  }

  /** Repeats are removed without reordering: the output lists chunks by the first occurrence of their ids. */
  lemma {:induction false} DedupeKeepsOrder(chunks: seq<Chunk>, i: nat, j: nat)
    requires i < j < |Dedupe(chunks)|
    ensures FirstAt(chunks, Dedupe(chunks)[i].id) < FirstAt(chunks, Dedupe(chunks)[j].id) < |chunks|
    ensures Dedupe(chunks)[i].id != Dedupe(chunks)[j].id
  {
    var n := |chunks| - 1;
    var front, r := Dedupe(chunks[..n]), Dedupe(chunks);
    assert front[i] == r[i];
    IdsAreKept(chunks[..n], r[i].id);
    if j < |front| {
      DedupeKeepsOrder(chunks[..n], i, j);
    } else {
      IdsAreKept(chunks[..n], chunks[n].id);
    }
  }

  // ----- What removing repeats loses

  ghost predicate AreFrom(site: string, path: string, chunks: seq<Chunk>) {
    forall i :: 0 <= i < |chunks| ==> IsFrom(site, path, chunks[i]) && HasText(chunks[i])
  }

  /** The chunk's text is in the output, in the chunk that has its id. */
  ghost predicate IsShown(output: seq<Chunk>, c: Chunk) {
    exists r :: r in output && r.id == c.id && Contains(r.text, c.text)
  }

  /** No chunk is longer than the first one with its id. */
  predicate FirstsAreLongest(chunks: seq<Chunk>) {
    forall i :: 0 <= i < |chunks| && FirstAt(chunks, chunks[i].id) < |chunks| ==>
      |chunks[i].text| <= |chunks[FirstAt(chunks, chunks[i].id)].text|
  }

  lemma HolderOf(chunks: seq<Chunk>, i: nat) returns (h: nat)
    requires i < |chunks| && HasText(chunks[i])
    ensures h == FirstAt(chunks, chunks[i].id) <= i && IsFirst(chunks, h) && chunks[h].id == chunks[i].id
    ensures chunks[h] in Dedupe(chunks)
    ensures forall r :: r in Dedupe(chunks) && r.id == chunks[i].id ==> r == chunks[h]
  {
    h := FirstAt(chunks, chunks[i].id);
    assert IsFirst(chunks, h);
    DedupeHolds(chunks, chunks[h]);
    forall r | r in Dedupe(chunks) && r.id == chunks[i].id ensures r == chunks[h] {
      DedupeHolds(chunks, r);
    }
  }

  lemma ShownIffNotLonger(site: string, path: string, chunks: seq<Chunk>, i: nat)
    requires AreFrom(site, path, chunks) && i < |chunks|
    ensures IsShown(Dedupe(chunks), chunks[i]) <==> |chunks[i].text| <= |chunks[FirstAt(chunks, chunks[i].id)].text|
  {
    var h := HolderOf(chunks, i);
    TextsNest(site, path, chunks[h], chunks[i]);
  }

  /** Every chunk's text is shown under its id exactly when no chunk is longer than the first one with its id. */
  lemma TextsSurvive(site: string, path: string, chunks: seq<Chunk>)
    requires AreFrom(site, path, chunks)
    ensures (forall i :: 0 <= i < |chunks| ==> IsShown(Dedupe(chunks), chunks[i])) <==> FirstsAreLongest(chunks)
  {
    forall i | 0 <= i < |chunks|
      ensures FirstAt(chunks, chunks[i].id) < |chunks|
      ensures IsShown(Dedupe(chunks), chunks[i]) <==> |chunks[i].text| <= |chunks[FirstAt(chunks, chunks[i].id)].text|
    {
      var h := HolderOf(chunks, i);
      ShownIffNotLonger(site, path, chunks, i);
    }
  }

  /** Every chunk itself is kept exactly when equal ids mean equal chunks. */
  lemma ChunksSurvive(chunks: seq<Chunk>)
    requires forall i :: 0 <= i < |chunks| ==> HasText(chunks[i])
    ensures (forall c :: c in chunks ==> c in Dedupe(chunks))
            <==> forall i, j :: 0 <= i < |chunks| && 0 <= j < |chunks| && chunks[i].id == chunks[j].id ==>
                chunks[i] == chunks[j]
  {
    if forall c :: c in chunks ==> c in Dedupe(chunks) {
      forall i, j | 0 <= i < |chunks| && 0 <= j < |chunks| && chunks[i].id == chunks[j].id
        ensures chunks[i] == chunks[j]
      {
        var h := HolderOf(chunks, i);
        assert chunks[i] in chunks && chunks[j] in chunks;
      }
    } else {
      var c :| c in chunks && c !in Dedupe(chunks);
      var i :| 0 <= i < |chunks| && chunks[i] == c;
      var h := HolderOf(chunks, i);
      assert chunks[h] != chunks[i];
    }
  }
}
