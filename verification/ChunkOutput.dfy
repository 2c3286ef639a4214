/** What a chunked document shows of its paragraphs, and exactly when ids that meet make it lose one. */
module ChunkOutput {
  import opened Text
  import opened NormalText
  import opened Words
  import opened Keywords
  import opened ChunkIds
  import opened Chunker

  lemma {:induction false} ChunkIndex(cfg: Config, drafts: seq<Draft>, d: nat)
    requires d < |drafts|
    ensures |ChunksOf(cfg, drafts)| == |drafts| && ChunksOf(cfg, drafts)[d] == ChunkOf(cfg, drafts[d])
  {
    if |drafts| > 1 {
      ChunkIndex(cfg, Front(drafts), if d < |drafts| - 1 then d else 0);
    }
  }

  lemma DraftHasText(cfg: Config, before: seq<Draft>, d: Draft)
    requires IsDraft(cfg, before, d)
    ensures HasText(ChunkOf(cfg, d)) && IsFrom(cfg.site, cfg.path, ChunkOf(cfg, d))
  {
    DraftIsFilled(cfg, before, d);
    ChunkHasText(d.tail, d.parts);
  }

  lemma DraftedAreFrom(cfg: Config, drafts: seq<Draft>)
    requires AreDrafts(cfg, drafts)
    ensures AreFrom(cfg.site, cfg.path, ChunksOf(cfg, drafts))
  {
    var chunks := ChunksOf(cfg, drafts);
    if drafts != [] {
      ChunkIndex(cfg, drafts, 0);
    }
    forall d | 0 <= d < |chunks| ensures IsFrom(cfg.site, cfg.path, chunks[d]) && HasText(chunks[d]) {
      ChunkIndex(cfg, drafts, d);
      DraftAt(cfg, drafts, d);
      DraftHasText(cfg, drafts[..d], drafts[d]);
    }
  }

  lemma DocumentIsDrafted(cfg: Config, ps: seq<Paragraph>)
    ensures AreDrafts(cfg, Drafts(cfg, Pieces(cfg.path, ps))) && AreFrom(cfg.site, cfg.path, Drafted(cfg, ps))
  {
    PiecesHaveText(cfg.path, ps);
    DraftsLoseNothing(cfg, Pieces(cfg.path, ps));
    DraftedAreFrom(cfg, Drafts(cfg, Pieces(cfg.path, ps)));
  }

  // ----- Exactly when nothing is lost

  /**
    Every drafted chunk's text is in the output, in the chunk that has its id, if and only if no drafted chunk is
    longer than the first one with its id.
   */
  lemma NoTextIsLost(cfg: Config, ps: seq<Paragraph>)
    ensures (forall i :: 0 <= i < |Drafted(cfg, ps)| ==> IsShown(Output(cfg, ps), Drafted(cfg, ps)[i]))
            <==> FirstsAreLongest(Drafted(cfg, ps))
  {
    DocumentIsDrafted(cfg, ps);
    TextsSurvive(cfg.site, cfg.path, Drafted(cfg, ps));
  }

  /** Every drafted chunk itself is in the output if and only if equal ids mean equal chunks. */
  lemma NoChunkIsLost(cfg: Config, ps: seq<Paragraph>)
    ensures (forall c :: c in Drafted(cfg, ps) ==> c in Output(cfg, ps))
            <==> forall i, j :: 0 <= i < |Drafted(cfg, ps)| && 0 <= j < |Drafted(cfg, ps)|
                                && Drafted(cfg, ps)[i].id == Drafted(cfg, ps)[j].id ==>
                                Drafted(cfg, ps)[i] == Drafted(cfg, ps)[j]
  {
    DocumentIsDrafted(cfg, ps);
    ChunksSurvive(Drafted(cfg, ps));
  }

  /** Drafted chunks share an id exactly when their keywords followed by their lines are the same list. */
  lemma DraftedIdsMeet(cfg: Config, ps: seq<Paragraph>, i: nat, j: nat)
    requires i < |Drafted(cfg, ps)| && j < |Drafted(cfg, ps)|
    requires OnOneLine(Drafted(cfg, ps)[i].section) && OnOneLine(Drafted(cfg, ps)[j].section)
    ensures var a, b := Drafted(cfg, ps)[i], Drafted(cfg, ps)[j];
            a.id == b.id <==>
            && a.section == b.section && a.kind == b.kind
            && KeywordLines(a.keywords) + Lines(a.text) == KeywordLines(b.keywords) + Lines(b.text)
  {
    var drafts := Drafts(cfg, Pieces(cfg.path, ps));
    DocumentIsDrafted(cfg, ps);
    ChunkIndex(cfg, drafts, 0);
    KeywordsOfDraft(cfg, drafts, i);
    KeywordsOfDraft(cfg, drafts, j);
    IdsMeet(cfg.site, cfg.path, Drafted(cfg, ps)[i], Drafted(cfg, ps)[j]);
  }

  lemma KeywordsOfDraft(cfg: Config, drafts: seq<Draft>, d: nat)
    requires d < |drafts|
    ensures d < |ChunksOf(cfg, drafts)| && AreKeywords(ChunksOf(cfg, drafts)[d].keywords)
  {
    ChunkIndex(cfg, drafts, d);
    var draft := drafts[d];
    KeywordsAreKeywords(if draft.kind != Narrative && draft.parts != [] then draft.parts[0].keywords
                        else KeywordsOf(draft.parts));
  }

  // ----- Paragraphs

  lemma ContainsPart(a: string, b: string, c: string)
    requires Contains(a, b) && Contains(b, c)
    ensures Contains(a, c)
  {
    var p, q :| a == p + b + q;
    var r, s :| b == r + c + s;
    assert a == (p + r) + c + (s + q);
    ContainsAt(p + r, c, s + q);
  }

  /** The text of a fact's or an answered question's chunk is its one paragraph. */
  lemma SingleIsItsText(cfg: Config, before: seq<Draft>, d: Draft)
    requires IsDraft(cfg, before, d) && d.kind != Narrative
    ensures |d.parts| == 1 && ChunkOf(cfg, d).text == Normalize(d.parts[0].text)
  {
    assert d.parts == [d.parts[0]];
    BodyOfOne("", d.parts[0]);
  }

  /** The drafted chunk that piece k went into shows it, and is that piece alone unless it is a narrative. */
  lemma PieceIsDrafted(cfg: Config, drafts: seq<Draft>, k: nat) returns (d: nat)
    requires AreDrafts(cfg, drafts) && k < |Flatten(drafts)|
    ensures d < |ChunksOf(cfg, drafts)| && d < |drafts|
    ensures ShowsPiece(cfg, ChunksOf(cfg, drafts)[d], Flatten(drafts)[k])
    ensures Flatten(drafts)[k].kind != Narrative ==> ChunksOf(cfg, drafts)[d].text == Normalize(Flatten(drafts)[k].text)
  {
    var j;
    d, j := FlattenHolds(drafts, k);
    DraftAt(cfg, drafts, d);
    ChunkIndex(cfg, drafts, d);
    DraftShowsPiece(cfg, drafts[..d], drafts[d], j);
  }

  lemma DraftShowsPiece(cfg: Config, before: seq<Draft>, d: Draft, j: nat)
    requires IsDraft(cfg, before, d) && j < |d.parts|
    ensures ShowsPiece(cfg, ChunkOf(cfg, d), d.parts[j])
    ensures d.parts[j].kind != Narrative ==> ChunkOf(cfg, d).text == Normalize(d.parts[j].text)
  {
    DraftIsFilled(cfg, before, d);
    DraftShows(d.tail, d.parts, j);
    if d.parts[j].kind != Narrative {
      SingleIsItsText(cfg, before, d);
      assert j == 0;
    }
  }

  /** The chunk has the piece's whole normalized text, its section and its kind. */
  ghost predicate ShowsPiece(cfg: Config, c: Chunk, p: Piece) {
    && Contains(c.text, Normalize(p.text)) && c.kind == p.kind
    && c.section == if Trim(p.section) == "" then cfg.path else Trim(p.section)
  }

  ghost predicate OneLineSections(chunks: seq<Chunk>) {
    forall i :: 0 <= i < |chunks| ==> OnOneLine(chunks[i].section)
  }

  /** A piece whose chunk is shown is shown, under its own section and kind when sections are single lines. */
  lemma PieceAppears(cfg: Config, drafts: seq<Draft>, k: nat) returns (c: Chunk)
    requires AreDrafts(cfg, drafts) && k < |Flatten(drafts)| && FirstsAreLongest(ChunksOf(cfg, drafts))
    ensures c in Dedupe(ChunksOf(cfg, drafts)) && Contains(c.text, Normalize(Flatten(drafts)[k].text))
    ensures OneLineSections(ChunksOf(cfg, drafts)) ==> ShowsPiece(cfg, c, Flatten(drafts)[k])
  {
    var chunks := ChunksOf(cfg, drafts);
    var d := PieceIsDrafted(cfg, drafts, k);
    DraftedAreFrom(cfg, drafts);
    var h := HolderOf(chunks, d);
    c := chunks[h];
    TextsNest(cfg.site, cfg.path, c, chunks[d]);
    ContainsPart(c.text, chunks[d].text, Normalize(Flatten(drafts)[k].text));
    if OneLineSections(chunks) {
      IdsAgree(cfg.site, cfg.path, c, chunks[d]);
    }
  }

  ghost predicate ShowsParagraph(c: Chunk, p: Paragraph) {
    && Contains(c.text, Normalize(Trim(p.text))) && c.kind == p.kind
    && (Trim(p.section) != "" ==> c.section == Trim(p.section))
  }

  lemma ParagraphAt(cfg: Config, ps: seq<Paragraph>, i: nat) returns (k: nat)
    requires i < |ps| && Trim(ps[i].text) != ""
    ensures var pieces := Pieces(cfg.path, ps);
            && Flatten(Drafts(cfg, pieces)) == pieces && k < |pieces|
            && pieces[k].text == Trim(ps[i].text) && pieces[k].kind == ps[i].kind
            && (ps[i].section != "" ==> pieces[k].section == ps[i].section)
  {
    var pieces := Pieces(cfg.path, ps);
    PiecesHaveText(cfg.path, ps);
    DraftsLoseNothing(cfg, pieces);
    ParagraphIsPiece(cfg.path, ps, i);
    k :| 0 <= k < |pieces| && pieces[k].text == Trim(ps[i].text) && pieces[k].kind == ps[i].kind
         && (ps[i].section != "" ==> pieces[k].section == ps[i].section);
  }

  /**
    If no drafted chunk is longer than the first one with its id, every paragraph with text appears whole,
    normalized, in an output chunk, of its own section and kind when sections are single lines.
   */
  lemma EveryParagraphAppears(cfg: Config, ps: seq<Paragraph>, i: nat)
    requires i < |ps| && Trim(ps[i].text) != "" && FirstsAreLongest(Drafted(cfg, ps))
    ensures exists c :: c in Output(cfg, ps) && Contains(c.text, Normalize(Trim(ps[i].text)))
                        && (OneLineSections(Drafted(cfg, ps)) ==> ShowsParagraph(c, ps[i]))
  {
    DocumentIsDrafted(cfg, ps);
    var k := ParagraphAt(cfg, ps, i);
    var c := PieceAppears(cfg, Drafts(cfg, Pieces(cfg.path, ps)), k);
    assert OneLineSections(Drafted(cfg, ps)) ==> ShowsParagraph(c, ps[i]);
  }

  /** The output chunk with the given id contains the text. */
  ghost predicate HoldsText(output: seq<Chunk>, id: string, text: string) {
    exists r :: r in output && r.id == id && Contains(r.text, text)
  }

  /** A fact or an answered question appears in the chunk that has its id if and only if it is not longer than it. */
  lemma SingleAppearsIff(cfg: Config, ps: seq<Paragraph>, i: nat) returns (d: nat)
    requires i < |ps| && Trim(ps[i].text) != "" && ps[i].kind != Narrative
    ensures d < |Drafted(cfg, ps)| && Drafted(cfg, ps)[d].text == Normalize(Trim(ps[i].text))
    ensures FirstAt(Drafted(cfg, ps), Drafted(cfg, ps)[d].id) <= d
    ensures HoldsText(Output(cfg, ps), Drafted(cfg, ps)[d].id, Normalize(Trim(ps[i].text)))
            <==> var first := FirstAt(Drafted(cfg, ps), Drafted(cfg, ps)[d].id);
                 |Normalize(Trim(ps[i].text))| <= |Drafted(cfg, ps)[first].text|
  {
    DocumentIsDrafted(cfg, ps);
    var k := ParagraphAt(cfg, ps, i);
    d := PieceIsDrafted(cfg, Drafts(cfg, Pieces(cfg.path, ps)), k);
    var h := HolderOf(Drafted(cfg, ps), d);
    ShownIffNotLonger(cfg.site, cfg.path, Drafted(cfg, ps), d);
    assert IsShown(Output(cfg, ps), Drafted(cfg, ps)[d])
        <==> HoldsText(Output(cfg, ps), Drafted(cfg, ps)[d].id, Normalize(Trim(ps[i].text)));
  }
}
