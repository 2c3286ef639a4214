/** Documents in which two different facts share an id, so that the later one is lost. */
module CollidingChunks {
  import opened Text
  import opened NormalText
  import opened Words
  import opened Keywords
  import opened ChunkIds
  import opened Chunker
  import opened ChunkOutput

  /** The words of two facts and a note between them, under one heading. */
  datatype Case = Case(section: string, key: string, first: string, last: string, note: string)

  /** The later fact has two lines; the earlier one has its first line as a keyword and its last line as text. */
  function Document(w: Case): seq<Paragraph> {
    [Paragraph(w.section, w.last, Fact, [w.section, w.key, w.first]),
     Paragraph(w.section, w.note, Narrative, [w.section]),
     Paragraph(w.section, TwoLines(w), Fact, [w.section, w.key])]
  }

  function TwoLines(w: Case): string {
    w.first + ("\n" + w.last)
  }

  ghost predicate AreApart(w: Case) {
    && AreWords([w.section, w.key, w.first]) && IsWord(w.last) && IsWord(w.note)
    && |w.note| < |TwoLines(w)|
  }

  // ----- Words are normalized as they are

  lemma WordNormalizes(s: string)
    requires IsWord(s)
    ensures CleanLines(s) == [s] && Normalize(s) == s && Trim(s) == s
  {
    OneLine(s);
    WordIsInline(s);
    assert Clean([s]) == CleanLine(s) + Clean([]);
  }

  lemma TwoLinesNormalize(w: Case)
    requires IsWord(w.first) && IsWord(w.last)
    ensures Trim(TwoLines(w)) == TwoLines(w) && Normalize(TwoLines(w)) == TwoLines(w)
  {
    var s := TwoLines(w);
    WordNormalizes(w.first);
    WordNormalizes(w.last);
    BrokenLines(w.first, w.last);
    NormalizeIsJoin(s);
    TrimFacts(s);
    JoinOfTwo(w.first, w.last);
  }

  lemma JoinOfTwo(a: string, b: string)
    ensures Join([a] + [b], "\n") == a + ("\n" + b)
  {
    assert ([a] + [b])[1..] == [b];
    assert a + "\n" + b == a + ("\n" + b);
  }

  function AsPiece(p: Paragraph): Piece {
    Piece(p.section, p.text, p.kind, p.keywords)
  }

  ghost predicate IsNormal(p: Paragraph) {
    && p.section != "" && Trim(p.section) == p.section && p.text != "" && Trim(p.text) == p.text
    && Normalize(p.text) == p.text && NormalizeKeywords(p.keywords) == p.keywords
  }

  lemma DocumentIsNormal(w: Case)
    requires AreApart(w)
    ensures IsNormal(Document(w)[0]) && IsNormal(Document(w)[1]) && IsNormal(Document(w)[2])
  {
    var all := [w.section, w.key, w.first];
    assert IsWord(all[0]) && IsWord(all[1]) && IsWord(all[2]);
    assert [w.section, w.key] == all[..2] && [w.section] == all[..1];
    WordNormalizes(w.section);
    WordNormalizes(w.last);
    WordNormalizes(w.note);
    TwoLinesNormalize(w);
    WordsAreKeywords(all);
    WordsAreKeywords(all[..2]);
    WordsAreKeywords(all[..1]);
  }

  // ----- The drafts and their chunks

  lemma ThreePieces(path: string, a: Paragraph, b: Paragraph, c: Paragraph)
    requires IsNormal(a) && IsNormal(b) && IsNormal(c)
    ensures Pieces(path, [a, b, c]) == [AsPiece(a), AsPiece(b), AsPiece(c)]
  {
    assert Front([a, b, c]) == [a, b] && Front([a, b]) == [a] && Front([a]) == [];
    assert Pieces(path, [a]) == [AsPiece(a)];
    assert Pieces(path, [a, b]) == [AsPiece(a), AsPiece(b)];
  }

  function AsDraft(p: Piece): Draft {
    Draft(p.section, "", [p], p.kind)
  }

  /** A narrative between two single pieces of its section. */
  lemma ThreeDrafts(cfg: Config, p: Piece, q: Piece, r: Piece)
    requires p.kind != Narrative && q.kind == Narrative && r.kind != Narrative
    requires p.section == q.section == r.section && q.text != "" && Trim(q.text) == q.text
    ensures Drafts(cfg, [p, q, r]) == [AsDraft(p), AsDraft(q), AsDraft(r)]
  {
    var section := p.section;
    WorkAppend(cfg, [], p);
    assert [] + [p] == [p];
    assert WorkAfter(cfg, [p]) == Work([AsDraft(p)], section, "", []);
    WorkAppend(cfg, [p], q);
    assert [p] + [q] == [p, q];
    assert WorkAfter(cfg, [p, q]) == Work([AsDraft(p)], section, "", [q]);
    WorkAppend(cfg, [p, q], r);
    assert [p, q] + [r] == [p, q, r];
    BodyOfOne("", q);
    assert Close(Work([AsDraft(p)], section, "", [q])) == Work([AsDraft(p), AsDraft(q)], section, "", []);
    assert WorkAfter(cfg, [p, q, r]) == Work([AsDraft(p), AsDraft(q), AsDraft(r)], section, "", []);
  }

  /** The chunk of a paragraph whose fields are normalized already. */
  function PlainChunk(cfg: Config, p: Paragraph): Chunk {
    Chunk(IdOf(cfg.site, cfg.path, p.section, p.kind, p.keywords, p.text), p.section, p.text, p.kind, p.keywords)
  }

  lemma ChunkOfPlain(cfg: Config, p: Paragraph)
    requires IsNormal(p)
    ensures ChunkOf(cfg, AsDraft(AsPiece(p))) == PlainChunk(cfg, p)
  {
    BodyOfOne("", AsPiece(p));
    PartsAppend("", [], AsPiece(p));
    assert [] + [AsPiece(p)] == [AsPiece(p)];
    assert KeywordsOf([AsPiece(p)]) == p.keywords;
  }

  lemma PlainChunkAt(cfg: Config, drafts: seq<Draft>, d: nat, p: Paragraph)
    requires d < |drafts| && drafts[d] == AsDraft(AsPiece(p)) && IsNormal(p)
    ensures |ChunksOf(cfg, drafts)| == |drafts| && ChunksOf(cfg, drafts)[d] == PlainChunk(cfg, p)
  {
    ChunkIndex(cfg, drafts, d);
    ChunkOfPlain(cfg, p);
  }

  /** A normalized narrative between two normalized facts of its section makes three chunks. */
  lemma ThreeChunks(cfg: Config, a: Paragraph, b: Paragraph, c: Paragraph)
    requires IsNormal(a) && IsNormal(b) && IsNormal(c) && a.section == b.section == c.section
    requires a.kind != Narrative && b.kind == Narrative && c.kind != Narrative
    ensures var chunks := Drafted(cfg, [a, b, c]);
            && |chunks| == 3 && chunks[0] == PlainChunk(cfg, a) && chunks[1] == PlainChunk(cfg, b)
            && chunks[2] == PlainChunk(cfg, c)
  {
    ThreePieces(cfg.path, a, b, c);
    ThreeDrafts(cfg, AsPiece(a), AsPiece(b), AsPiece(c));
    var drafts := [AsDraft(AsPiece(a)), AsDraft(AsPiece(b)), AsDraft(AsPiece(c))];
    PlainChunkAt(cfg, drafts, 0, a);
    PlainChunkAt(cfg, drafts, 1, b);
    PlainChunkAt(cfg, drafts, 2, c);
  }

  // ----- The collision

  /** Whatever the fields, making the first line of a text a keyword instead keeps the id. */
  lemma LineOrKeyword(cfg: Config, section: string, kind: Kind, keywords: seq<string>, line: string, text: string)
    requires keywords != []
    ensures IdOf(cfg.site, cfg.path, section, kind, keywords + [line], text)
            == IdOf(cfg.site, cfg.path, section, kind, keywords, line + ("\n" + text))
  {
    JoinConcat(keywords, [line], "\n");
    var front := Join(keywords, "\n");
    assert front + "\n" + line + ("\n" + text) == front + ("\n" + (line + ("\n" + text)));
  }

  /** Of three chunks the last of which has the first one's id, only the first two can be kept. */
  lemma LastIsDropped(chunks: seq<Chunk>, c: Chunk)
    requires |chunks| == 3 && HasText(chunks[0]) && chunks[0].id == chunks[2].id && c in Dedupe(chunks)
    ensures c == chunks[0] || c == chunks[1]
  {
    DedupeHolds(chunks, c);
  }

  lemma LongerIsLost(chunks: seq<Chunk>, text: string)
    requires |chunks| == 3 && HasText(chunks[0]) && chunks[0].id == chunks[2].id && chunks[2].text == text
    requires |chunks[0].text| < |text| && |chunks[1].text| < |text|
    ensures forall c :: c in Dedupe(chunks) ==> !Contains(c.text, text)
    ensures !FirstsAreLongest(chunks)
  {
    forall c | c in Dedupe(chunks) ensures !Contains(c.text, text) {
      LastIsDropped(chunks, c);
    }
    assert FirstAt(chunks, chunks[2].id) == 0;
  }

  lemma SharedIdLosesText(cfg: Config, a: Paragraph, b: Paragraph, c: Paragraph)
    requires IsNormal(a) && IsNormal(b) && IsNormal(c) && a.section == b.section == c.section
    requires a.kind != Narrative && b.kind == Narrative && c.kind != Narrative
    requires PlainChunk(cfg, a).id == PlainChunk(cfg, c).id && |a.text| < |c.text| && |b.text| < |c.text|
    ensures forall r :: r in Output(cfg, [a, b, c]) ==> !Contains(r.text, c.text)
    ensures !FirstsAreLongest(Drafted(cfg, [a, b, c]))
  {
    ThreeChunks(cfg, a, b, c);
    LongerIsLost(Drafted(cfg, [a, b, c]), c.text);
  }

  /** Whatever the words, the chunk size and the overlap: the later fact appears in no chunk of the output. */
  lemma CollidingFactIsLost(cfg: Config, w: Case)
    requires AreApart(w)
    ensures forall c :: c in Output(cfg, Document(w)) ==> !Contains(c.text, Normalize(Trim(Document(w)[2].text)))
    ensures !FirstsAreLongest(Drafted(cfg, Document(w)))
  {
    DocumentIsNormal(w);
    LineOrKeyword(cfg, w.section, Fact, [w.section, w.key], w.first, w.last);
    assert [w.section, w.key] + [w.first] == [w.section, w.key, w.first];
    SharedIdLosesText(cfg, Document(w)[0], Document(w)[1], Document(w)[2]);
  }

  /**
    What two tables under the heading "Size：Size" yield, with a note between them: the first has one column Size
    with the cell "Size：y", the second two columns Size and "Size：Size" with the cells y and y.
   */
  function SizeTables(): Case {
    Case("Size：Size", "Size", "Size：y", "Size：Size：y", "note")
  }

  lemma SizeTablesAreApart()
    ensures AreApart(SizeTables())
  {
  }

  /** The second table's row is nowhere in the output. */
  lemma SizeTablesCollide(cfg: Config)
    ensures var ps := Document(SizeTables());
            forall c :: c in Output(cfg, ps) ==> !Contains(c.text, Normalize(Trim(ps[2].text)))
  {
    SizeTablesAreApart();
    CollidingFactIsLost(cfg, SizeTables());
  }
}
