/**
  Splitting a document's paragraphs into chunks: nothing is lost, a chunk never mixes sections, and its
  size is bounded.
 */
module Chunker {
  import opened Text
  import opened NormalText
  import opened Keywords
  import opened ChunkIds

  const DEFAULT_CHUNK_CHARS: nat := 900

  datatype Paragraph = Paragraph(section: string, text: string, kind: Kind, keywords: seq<string>)

  /** A paragraph with text, trimmed, under the section it falls in. */
  datatype Piece = Piece(section: string, text: string, kind: Kind, keywords: seq<string>)

  /** What a chunk is made of: an overlap tail and whole pieces. */
  datatype Draft = Draft(section: string, tail: string, parts: seq<Piece>, kind: Kind)

  /** The drafts so far, and the open builder. */
  datatype Work = Work(drafts: seq<Draft>, section: string, tail: string, parts: seq<Piece>)

  datatype Config = Config(site: string, path: string, chunkSize: nat, overlap: nat)

  function Last<T>(s: seq<T>): T
    requires s != []
  {
    s[|s| - 1]
  }

  function Front<T>(s: seq<T>): (r: seq<T>)
    requires s != []
  {
    s[..|s| - 1]
  }

  lemma FrontOfAppend<T>(s: seq<T>, x: T)
    ensures Front(s + [x]) == s && Last(s + [x]) == x
  {
  }

  // ----- The pieces of a document, whatever the chunk size

  function CurrentSection(path: string, pieces: seq<Piece>): string {
    if pieces == [] then path else Last(pieces).section
  }

  /** The paragraphs with text; one without a section of its own falls under that of the piece before it. */
  function Pieces(path: string, ps: seq<Paragraph>): seq<Piece> {
    if ps == [] then [] else Extended(path, Pieces(path, Front(ps)), Last(ps))
  }

  function Extended(path: string, pieces: seq<Piece>, p: Paragraph): seq<Piece> {
    if Trim(p.text) == "" then pieces
    else
      var section := if p.section != "" then p.section else CurrentSection(path, pieces);
      pieces + [Piece(section, Trim(p.text), p.kind, p.keywords)]
  }

  ghost predicate IsPiece(p: Piece) {
    p.text != "" && IsTrimmed(p.text)
  }

  ghost predicate ArePieces(ps: seq<Piece>) {
    forall i :: 0 <= i < |ps| ==> IsPiece(ps[i])
  }

  lemma {:induction false} PiecesHaveText(path: string, ps: seq<Paragraph>)
    ensures ArePieces(Pieces(path, ps))
  {
    if ps != [] {
      PiecesHaveText(path, Front(ps));
      TrimFacts(Last(ps).text);
    }
  }

  /** Every paragraph with text is a piece. */
  lemma {:induction false} ParagraphIsPiece(path: string, ps: seq<Paragraph>, i: nat)
    requires i < |ps| && Trim(ps[i].text) != ""
    ensures exists k :: 0 <= k < |Pieces(path, ps)| && Pieces(path, ps)[k].text == Trim(ps[i].text)
                        && Pieces(path, ps)[k].kind == ps[i].kind
                        && (ps[i].section != "" ==> Pieces(path, ps)[k].section == ps[i].section)
  {
    var all, front := Pieces(path, ps), Pieces(path, Front(ps));
    if i < |ps| - 1 {
      ParagraphIsPiece(path, Front(ps), i);
      var k :| 0 <= k < |front| && front[k].text == Trim(ps[i].text) && front[k].kind == ps[i].kind
               && (ps[i].section != "" ==> front[k].section == ps[i].section);
      assert all[k] == front[k];
    } else {
      assert all[|all| - 1].text == Trim(ps[i].text);
    }
  }

  function WithText(ps: seq<Paragraph>): nat {
    if ps == [] then 0 else WithText(Front(ps)) + if Trim(Last(ps).text) != "" then 1 else 0
  }

  /** The paragraph's section, or the last one a paragraph with text had before it, or else the document's path. */
  ghost predicate IsSectionAt(path: string, ps: seq<Paragraph>, i: nat, section: string)
    requires i <= |ps|
  {
    if i == 0 then section == path
    else if Trim(ps[i - 1].text) != "" && ps[i - 1].section != "" then section == ps[i - 1].section
    else IsSectionAt(path, ps, i - 1, section)
  }

  lemma SectionOfFront(path: string, ps: seq<Paragraph>, i: nat, section: string)
    requires ps != [] && i < |ps|
    ensures IsSectionAt(path, Front(ps), i, section) <==> IsSectionAt(path, ps, i, section)
  {
  }

  lemma {:induction false} CurrentSectionIs(path: string, ps: seq<Paragraph>)
    ensures |Pieces(path, ps)| == WithText(ps)
    ensures IsSectionAt(path, ps, |ps|, CurrentSection(path, Pieces(path, ps)))
  {
    if ps != [] {
      var n := |ps| - 1;
      CurrentSectionIs(path, Front(ps));
      SectionOfFront(path, ps, n, CurrentSection(path, Pieces(path, Front(ps))));
    }
  }

  /** The pieces are the paragraphs with text, in order, trimmed, each under the section it falls in. */
  lemma {:induction false} PiecesFollowParagraphs(path: string, ps: seq<Paragraph>, i: nat)
    requires i < |ps| && Trim(ps[i].text) != ""
    ensures |Pieces(path, ps)| == WithText(ps) && WithText(ps[..i]) < WithText(ps)
    ensures var p := Pieces(path, ps)[WithText(ps[..i])];
            && p.text == Trim(ps[i].text) && p.kind == ps[i].kind && p.keywords == ps[i].keywords
            && IsSectionAt(path, ps, i + 1, p.section)
  {
    var n := |ps| - 1;
    CurrentSectionIs(path, ps);
    CurrentSectionIs(path, Front(ps));
    if i < n {
      PiecesFollowParagraphs(path, Front(ps), i);
      assert Front(ps)[..i] == ps[..i];
      SectionOfFront(path, ps, i + 1, Pieces(path, Front(ps))[WithText(ps[..i])].section);
    }
  }

  // ----- Chunking pieces

  /** The builder's contents. */
  function Body(tail: string, parts: seq<Piece>): string {
    if parts == [] then tail else Glue(Body(tail, Front(parts)), Last(parts).text)
  }

  function Glue(body: string, text: string): string {
    if body == "" then text else body + "\n\n" + text
  }

  function TrimToLast(text: string, limit: nat): string {
    if limit == 0 || text == "" then ""
    else if |text| <= limit then text
    else Trim(text[|text| - limit..])
  }

  /** Ends the open chunk. */
  function Flush(w: Work): Work {
    if Trim(Body(w.tail, w.parts)) == "" then w.(tail := "", parts := [])
    else Work(w.drafts + [Draft(w.section, w.tail, w.parts, Narrative)], w.section, "", [])
  }

  /** Adds a narrative piece, ending the open chunk first if that would grow too long. */
  function Add(cfg: Config, w: Work, p: Piece): Work {
    var body := Body(w.tail, w.parts);
    if body != "" && |body| + 2 + |p.text| > cfg.chunkSize
    then Flush(w).(tail := TrimToLast(Trim(body), cfg.overlap), parts := [p])
    else w.(parts := w.parts + [p])
  }

  function Close(w: Work): Work {
    if Body(w.tail, w.parts) != "" then Flush(w) else w
  }

  function Enter(w: Work, section: string): Work {
    if section != w.section then Close(w).(section := section) else w
  }

  function AddSingle(w: Work, p: Piece): Work {
    Work(w.drafts + [Draft(p.section, "", [p], p.kind)], p.section, w.tail, w.parts)
  }

  function Step(cfg: Config, w: Work, p: Piece): Work {
    if p.kind != Narrative then AddSingle(Close(w), p) else Add(cfg, Enter(w, p.section), p)
  }

  function WorkAfter(cfg: Config, pieces: seq<Piece>): Work {
    if pieces == [] then Work([], cfg.path, "", []) else Step(cfg, WorkAfter(cfg, Front(pieces)), Last(pieces))
  }

  function Drafts(cfg: Config, pieces: seq<Piece>): seq<Draft> {
    Close(WorkAfter(cfg, pieces)).drafts
  }

  function KeywordsOf(parts: seq<Piece>): seq<string> {
    if parts == [] then [] else MergeKeywords(KeywordsOf(Front(parts)), Last(parts).keywords)
  }

  function NewChunk(cfg: Config, section: string, text: string, kind: Kind, keywords: seq<string>): Chunk {
    var s := if Trim(section) == "" then cfg.path else Trim(section);
    var t, k := Normalize(text), NormalizeKeywords(keywords);
    Chunk(IdOf(cfg.site, cfg.path, s, kind, k, t), s, t, kind, k)
  }

  function ChunkOf(cfg: Config, d: Draft): Chunk {
    NewChunk(cfg, d.section, Body(d.tail, d.parts), d.kind,
             if d.kind != Narrative && d.parts != [] then d.parts[0].keywords else KeywordsOf(d.parts))
  }

  function ChunksOf(cfg: Config, drafts: seq<Draft>): seq<Chunk> {
    if drafts == [] then [] else ChunksOf(cfg, Front(drafts)) + [ChunkOf(cfg, Last(drafts))]
  }

  // ----- What every draft keeps

  ghost predicate IsFilled(tail: string, parts: seq<Piece>) {
    IsTrimmed(tail) && ArePieces(parts)
  }

  /** Filled builders are trimmed, and blank only when nothing was written to them. */
  lemma {:induction false} BodyIsTrimmed(tail: string, parts: seq<Piece>)
    requires IsFilled(tail, parts)
    ensures IsTrimmed(Body(tail, parts)) && Trim(Body(tail, parts)) == Body(tail, parts)
    ensures parts != [] ==> Body(tail, parts) != ""
  {
    if parts != [] {
      BodyIsTrimmed(tail, Front(parts));
      assert IsPiece(parts[|parts| - 1]);
    }
    TrimFacts(Body(tail, parts));
  }

  ghost predicate IsPure(section: string, parts: seq<Piece>) {
    forall i :: 0 <= i < |parts| ==> parts[i].section == section && parts[i].kind == Narrative
  }

  ghost predicate IsBounded(cfg: Config, tail: string, parts: seq<Piece>) {
    || |Body(tail, parts)| <= cfg.chunkSize
    || (|parts| == 1 && |Body(tail, parts)| <= cfg.overlap + 2 + |parts[0].text|)
  }

  /** An overlap tail is cut from the draft before, a narrative of the same section. */
  ghost predicate ContinuesLast(cfg: Config, drafts: seq<Draft>, section: string, tail: string) {
    tail == "" || (drafts != [] && IsTailOf(cfg, Last(drafts), section, tail))
  }

  ghost predicate IsTailOf(cfg: Config, d: Draft, section: string, tail: string) {
    d.kind == Narrative && d.section == section && tail == TrimToLast(Body(d.tail, d.parts), cfg.overlap)
  }

  /** What holds of the builder: its parts are narrative, of one section, and not too long. */
  ghost predicate IsNarrative(cfg: Config, before: seq<Draft>, section: string, tail: string, parts: seq<Piece>) {
    && IsFilled(tail, parts) && IsPure(section, parts) && IsBounded(cfg, tail, parts)
    && ContinuesLast(cfg, before, section, tail)
  }

  ghost predicate IsSingle(d: Draft) {
    && d.tail == "" && |d.parts| == 1 && IsPiece(d.parts[0])
    && d.parts[0].section == d.section && d.parts[0].kind == d.kind
  }

  ghost predicate IsDraft(cfg: Config, before: seq<Draft>, d: Draft) {
    d.parts != [] && if d.kind == Narrative then IsNarrative(cfg, before, d.section, d.tail, d.parts) else IsSingle(d)
  }

  ghost predicate AreDrafts(cfg: Config, drafts: seq<Draft>) {
    drafts == [] || (AreDrafts(cfg, Front(drafts)) && IsDraft(cfg, Front(drafts), Last(drafts)))
  }

  ghost predicate IsWork(cfg: Config, w: Work) {
    && AreDrafts(cfg, w.drafts)
    && IsNarrative(cfg, w.drafts, w.section, w.tail, w.parts)
    && (w.parts == [] ==> w.tail == "")
  }

  function Flatten(drafts: seq<Draft>): seq<Piece> {
    if drafts == [] then [] else Flatten(Front(drafts)) + Last(drafts).parts
  }

  /** Everything taken so far. */
  function Taken(w: Work): seq<Piece> {
    Flatten(w.drafts) + w.parts
  }

  lemma Appended(cfg: Config, drafts: seq<Draft>, d: Draft)
    requires AreDrafts(cfg, drafts) && IsDraft(cfg, drafts, d)
    ensures AreDrafts(cfg, drafts + [d]) && Flatten(drafts + [d]) == Flatten(drafts) + d.parts
  {
    FrontOfAppend(drafts, d);
  }

  /** Closing makes a draft of a builder that holds a piece, and there is nothing else to close. */
  lemma CloseDrafts(w: Work)
    requires IsFilled(w.tail, w.parts) && (w.parts == [] ==> w.tail == "")
    ensures Close(w) == if w.parts == [] then w
                        else Work(w.drafts + [Draft(w.section, w.tail, w.parts, Narrative)], w.section, "", [])
    ensures w.parts != [] ==> Close(w) == Flush(w)
  {
    BodyIsTrimmed(w.tail, w.parts);
  }

  lemma CloseKeeps(cfg: Config, w: Work)
    requires IsWork(cfg, w)
    ensures IsWork(cfg, Close(w)) && Taken(Close(w)) == Taken(w)
    ensures Close(w).parts == [] && Close(w).section == w.section
  {
    CloseDrafts(w);
    if w.parts != [] {
      Appended(cfg, w.drafts, Draft(w.section, w.tail, w.parts, Narrative));
    }
  }

  lemma EnterKeeps(cfg: Config, w: Work, section: string)
    requires IsWork(cfg, w)
    ensures IsWork(cfg, Enter(w, section)) && Enter(w, section).section == section
    ensures Taken(Enter(w, section)) == Taken(w)
  {
    CloseKeeps(cfg, w);
  }

  lemma TailFacts(text: string, limit: nat)
    requires IsTrimmed(text)
    ensures |TrimToLast(text, limit)| <= limit && IsTrimmed(TrimToLast(text, limit))
  {
    if limit != 0 && |text| > limit {
      TrimFacts(text[|text| - limit..]);
    }
  }

  lemma BodyOfOne(tail: string, p: Piece)
    ensures Body(tail, [p]) == Glue(tail, p.text)
  {
    FrontOfAppend([], p);
    assert Front([p]) == [];
    assert Body(tail, []) == tail;
  }

  lemma AddOverflows(cfg: Config, w: Work, p: Piece)
    requires IsWork(cfg, w) && IsPiece(p) && p.kind == Narrative && p.section == w.section
    requires Body(w.tail, w.parts) != "" && |Body(w.tail, w.parts)| + 2 + |p.text| > cfg.chunkSize
    ensures IsWork(cfg, Add(cfg, w, p)) && Taken(Add(cfg, w, p)) == Taken(w) + [p]
  {
    var body := Body(w.tail, w.parts);
    var tail := TrimToLast(Trim(body), cfg.overlap);
    CloseKeeps(cfg, w);
    CloseDrafts(w);
    BodyIsTrimmed(w.tail, w.parts);
    TailFacts(body, cfg.overlap);
    BodyOfOne(tail, p);
    assert IsTailOf(cfg, Last(Flush(w).drafts), w.section, tail);
  }

  lemma AddFits(cfg: Config, w: Work, p: Piece)
    requires IsWork(cfg, w) && IsPiece(p) && p.kind == Narrative && p.section == w.section
    requires Body(w.tail, w.parts) == "" || |Body(w.tail, w.parts)| + 2 + |p.text| <= cfg.chunkSize
    ensures IsWork(cfg, Add(cfg, w, p)) && Taken(Add(cfg, w, p)) == Taken(w) + [p]
  {
    BodyIsTrimmed(w.tail, w.parts);
    FrontOfAppend(w.parts, p);
    assert Body(w.tail, w.parts + [p]) == Glue(Body(w.tail, w.parts), p.text);
    assert Flatten(w.drafts) + (w.parts + [p]) == Taken(w) + [p];
  }

  lemma AddSingleKeeps(cfg: Config, w: Work, p: Piece)
    requires IsWork(cfg, w) && w.parts == [] && IsPiece(p) && p.kind != Narrative
    ensures IsWork(cfg, AddSingle(w, p)) && Taken(AddSingle(w, p)) == Taken(w) + [p]
  {
    Appended(cfg, w.drafts, Draft(p.section, "", [p], p.kind));
    assert Flatten(w.drafts) + [p] + [] == Flatten(w.drafts) + [] + [p];
  }

  lemma BlankWork(cfg: Config)
    ensures Accounts(cfg, WorkAfter(cfg, []), [])
  {
  }

  lemma StepKeeps(cfg: Config, w: Work, p: Piece)
    requires IsWork(cfg, w) && IsPiece(p)
    ensures IsWork(cfg, Step(cfg, w, p)) && Taken(Step(cfg, w, p)) == Taken(w) + [p]
  {
    if p.kind != Narrative {
      CloseKeeps(cfg, w);
      AddSingleKeeps(cfg, Close(w), p);
    } else {
      EnterKeeps(cfg, w, p.section);
      var w' := Enter(w, p.section);
      if Body(w'.tail, w'.parts) == "" || |Body(w'.tail, w'.parts)| + 2 + |p.text| <= cfg.chunkSize {
        AddFits(cfg, w', p);
      } else {
        AddOverflows(cfg, w', p);
      }
    }
  }

  lemma WorkAppend(cfg: Config, pieces: seq<Piece>, p: Piece)
    ensures WorkAfter(cfg, pieces + [p]) == Step(cfg, WorkAfter(cfg, pieces), p)
    ensures CurrentSection(cfg.path, pieces + [p]) == p.section
  {
    FrontOfAppend(pieces, p);
  }

  lemma OneMorePiece(cfg: Config, pieces: seq<Piece>, p: Piece)
    requires IsPiece(p) && Accounts(cfg, WorkAfter(cfg, pieces), pieces)
    ensures Accounts(cfg, WorkAfter(cfg, pieces + [p]), pieces + [p])
  {
    WorkAppend(cfg, pieces, p);
    StepKeeps(cfg, WorkAfter(cfg, pieces), p);
  }

  /** The work on the pieces so far is in order and has taken them all. */
  ghost predicate Accounts(cfg: Config, w: Work, pieces: seq<Piece>) {
    IsWork(cfg, w) && Taken(w) == pieces
  }

  lemma {:induction false} WorkKeeps(cfg: Config, pieces: seq<Piece>)
    requires ArePieces(pieces)
    ensures Accounts(cfg, WorkAfter(cfg, pieces), pieces)
  {
    if pieces == [] {
      BlankWork(cfg);
    } else {
      var front, p := Front(pieces), Last(pieces);
      assert pieces == front + [p];
      WorkKeeps(cfg, front);
      OneMorePiece(cfg, front, p);
    }
  }

  /** The drafts hold every piece exactly once, in document order. */
  lemma DraftsLoseNothing(cfg: Config, pieces: seq<Piece>)
    requires ArePieces(pieces)
    ensures Flatten(Drafts(cfg, pieces)) == pieces && AreDrafts(cfg, Drafts(cfg, pieces))
  {
    WorkKeeps(cfg, pieces);
    CloseKeeps(cfg, WorkAfter(cfg, pieces));
  }

  lemma {:induction false} DraftAt(cfg: Config, drafts: seq<Draft>, d: nat)
    requires AreDrafts(cfg, drafts) && d < |drafts|
    ensures IsDraft(cfg, drafts[..d], drafts[d])
  {
    if d < |drafts| - 1 {
      DraftAt(cfg, Front(drafts), d);
      assert Front(drafts)[..d] == drafts[..d];
    }
  }

  lemma TailIsInside(text: string, limit: nat)
    ensures Contains(text, TrimToLast(text, limit))
  {
    if limit == 0 || text == "" {
      ContainsAt("", "", text);
      assert "" + "" + text == text;
    } else if |text| <= limit {
      ContainsAt("", text, "");
      assert "" + text + "" == text;
    } else {
      var k := |text| - limit;
      var before, after := TrimIsInside(text[k..]);
      assert text == text[..k] + text[k..];
      assert text == (text[..k] + before) + Trim(text[k..]) + after;
      ContainsAt(text[..k] + before, Trim(text[k..]), after);
    }
  }

  /**
    Text of one section only: the pieces are of the draft's section, and its overlap tail is part of the draft
    just before it, a narrative of the same section, and no longer than the overlap.
   */
  ghost predicate IsSectionPure(cfg: Config, drafts: seq<Draft>, d: nat)
    requires d < |drafts|
  {
    && (forall k :: 0 <= k < |drafts[d].parts| ==> drafts[d].parts[k].section == drafts[d].section)
    && |drafts[d].tail| <= cfg.overlap
    && (drafts[d].tail != "" ==> d > 0 && IsPartOf(drafts[d - 1], drafts[d]))
  }

  ghost predicate IsPartOf(before: Draft, d: Draft) {
    && d.kind == Narrative && before.kind == Narrative && before.section == d.section
    && Contains(Body(before.tail, before.parts), d.tail)
  }

  lemma TailIsPart(cfg: Config, before: Draft, d: Draft)
    requires IsFilled(before.tail, before.parts) && d.kind == Narrative && IsTailOf(cfg, before, d.section, d.tail)
    ensures |d.tail| <= cfg.overlap && IsPartOf(before, d)
  {
    var body := Body(before.tail, before.parts);
    BodyIsTrimmed(before.tail, before.parts);
    TailFacts(body, cfg.overlap);
    TailIsInside(body, cfg.overlap);
  }

  lemma DraftIsFilled(cfg: Config, before: seq<Draft>, d: Draft)
    requires IsDraft(cfg, before, d)
    ensures IsFilled(d.tail, d.parts)
    ensures forall k :: 0 <= k < |d.parts| ==> d.parts[k].section == d.section && d.parts[k].kind == d.kind
  {
  }

  lemma DraftIsSectionPure(cfg: Config, drafts: seq<Draft>, d: nat)
    requires AreDrafts(cfg, drafts) && d < |drafts|
    ensures IsSectionPure(cfg, drafts, d)
  {
    DraftAt(cfg, drafts, d);
    DraftIsFilled(cfg, drafts[..d], drafts[d]);
    if drafts[d].tail != "" {
      DraftAt(cfg, drafts, d - 1);
      DraftIsFilled(cfg, drafts[..d - 1], drafts[d - 1]);
      assert Last(drafts[..d]) == drafts[d - 1];
      TailIsPart(cfg, drafts[d - 1], drafts[d]);
    }
  }

  /** No chunk mixes sections, not even through its overlap tail. */
  lemma {:induction false} DraftsAreSectionPure(cfg: Config, ps: seq<Paragraph>, d: nat)
    requires d < |Drafts(cfg, Pieces(cfg.path, ps))|
    ensures IsSectionPure(cfg, Drafts(cfg, Pieces(cfg.path, ps)), d)
  {
    PiecesHaveText(cfg.path, ps);
    DraftsLoseNothing(cfg, Pieces(cfg.path, ps));
    DraftIsSectionPure(cfg, Drafts(cfg, Pieces(cfg.path, ps)), d);
  }

  /** A narrative chunk is at most chunkSize long, or it is an overlap tail and a single new paragraph. */
  lemma ChunksAreBounded(cfg: Config, pieces: seq<Piece>, d: nat)
    requires ArePieces(pieces) && d < |Drafts(cfg, pieces)| && Drafts(cfg, pieces)[d].kind == Narrative
    ensures var draft := Drafts(cfg, pieces)[d];
            var length := |ChunkOf(cfg, draft).text|;
            length <= cfg.chunkSize || (|draft.parts| == 1 && length <= cfg.overlap + 2 + |draft.parts[0].text|)
  {
    DraftsLoseNothing(cfg, pieces);
    DraftAt(cfg, Drafts(cfg, pieces), d);
    var draft := Drafts(cfg, pieces)[d];
    NormalizeShrinks(Body(draft.tail, draft.parts));
  }

  // ----- Every paragraph appears whole

  /** The lines of the pieces, one after the other. */
  function PieceLines(parts: seq<Piece>): seq<string> {
    if parts == [] then [] else PieceLines(Front(parts)) + CleanLines(Last(parts).text)
  }

  lemma GlueLines(body: string, text: string)
    ensures CleanLines(Glue(body, text)) == CleanLines(body) + CleanLines(text)
  {
    if body != "" {
      CleanLinesConcat(body, text);
    } else {
      BlankLine();
      assert [] + CleanLines(text) == CleanLines(text);
    }
  }

  lemma {:induction false} BodyLines(tail: string, parts: seq<Piece>)
    ensures CleanLines(Body(tail, parts)) == CleanLines(tail) + PieceLines(parts)
  {
    if parts != [] {
      BodyLines(tail, Front(parts));
      GlueLines(Body(tail, Front(parts)), Last(parts).text);
      Regroup(CleanLines(tail), PieceLines(Front(parts)), CleanLines(Last(parts).text));
    }
  }

  lemma {:induction false} PieceLinesAt(parts: seq<Piece>, k: nat) returns (before: seq<string>, after: seq<string>)
    requires k < |parts|
    ensures PieceLines(parts) == before + CleanLines(parts[k].text) + after
  {
    if k == |parts| - 1 {
      before, after := PieceLines(Front(parts)), [];
    } else {
      before, after := PieceLinesAt(Front(parts), k);
      Regroup(before + CleanLines(parts[k].text), after, CleanLines(Last(parts).text));
      after := after + CleanLines(Last(parts).text);
    }
  }

  lemma DraftShows(tail: string, parts: seq<Piece>, k: nat)
    requires k < |parts|
    ensures Contains(Normalize(Body(tail, parts)), Normalize(parts[k].text))
  {
    BodyLines(tail, parts);
    var before, after := PieceLinesAt(parts, k);
    NormalizeIsJoin(Body(tail, parts));
    NormalizeIsJoin(parts[k].text);
    var a, b := CleanLines(tail), CleanLines(parts[k].text);
    Regroup(a, before + b, after);
    Regroup(a, before, b);
    JoinContains(a + before, b, after, "\n");
  }

  lemma ChunkHasText(tail: string, parts: seq<Piece>)
    requires IsFilled(tail, parts) && parts != []
    ensures Trim(Normalize(Body(tail, parts))) != ""
  {
    var body := Body(tail, parts);
    BodyIsTrimmed(tail, parts);
    SomeLineHasText(body);
    NormalizeIsJoin(body);
    CleanFacts(Lines(body));
    JoinTrimmed(CleanLines(body), "\n");
    TrimFacts(Normalize(body));
  }

  lemma {:induction false} FlattenHolds(drafts: seq<Draft>, k: nat) returns (d: nat, j: nat)
    requires k < |Flatten(drafts)|
    ensures d < |drafts| && j < |drafts[d].parts| && drafts[d].parts[j] == Flatten(drafts)[k]
  {
    var n := |Flatten(Front(drafts))|;
    if k >= n {
      d, j := |drafts| - 1, k - n;
    } else {
      d, j := FlattenHolds(Front(drafts), k);
    }
  }

  // ----- The loops

  /** The sizes a caller asks for, with the defaults filled in. */
  function Effective(site: string, path: string, chunkSize: int, overlap: int): Config {
    Config(site, path, if chunkSize <= 0 then DEFAULT_CHUNK_CHARS else chunkSize, if overlap < 0 then 0 else overlap)
  }

  /** The chunks of a document before repeats are removed. */
  function Drafted(cfg: Config, ps: seq<Paragraph>): seq<Chunk> {
    ChunksOf(cfg, Drafts(cfg, Pieces(cfg.path, ps)))
  }

  function Output(cfg: Config, ps: seq<Paragraph>): seq<Chunk> {
    Dedupe(Drafted(cfg, ps))
  }

  /** The loop's variables show the work so far. */
  ghost predicate Shows(cfg: Config, w: Work, chunks: seq<Chunk>, section: string, builder: string,
                        keywords: seq<string>) {
    && chunks == ChunksOf(cfg, w.drafts) && section == w.section
    && builder == Body(w.tail, w.parts) && keywords == KeywordsOf(w.parts)
  }

  /** Ends the open chunk: the builder and its keywords are reset whether or not it held text. */
  method FlushBuilder(cfg: Config, ghost pieces: seq<Piece>, section: string, chunks: seq<Chunk>, builder: string,
                      keywords: seq<string>)
    returns (chunks': seq<Chunk>)
    requires ArePieces(pieces) && builder != ""
    requires Shows(cfg, WorkAfter(cfg, pieces), chunks, section, builder, keywords)
    ensures Shows(cfg, Close(WorkAfter(cfg, pieces)), chunks', section, "", [])
  {
    ghost var w := WorkAfter(cfg, pieces);
    WorkKeeps(cfg, pieces);
    CloseDrafts(w);
    BodyIsTrimmed(w.tail, w.parts);
    var text := Trim(builder);
    chunks' := chunks;
    if text != "" {
      ghost var d := Draft(w.section, w.tail, w.parts, Narrative);
      FrontOfAppend(w.drafts, d);
      assert ChunksOf(cfg, w.drafts + [d]) == chunks + [ChunkOf(cfg, d)];
      chunks' := chunks + [NewChunk(cfg, section, text, Narrative, keywords)];
    }
  }

  lemma SingleShows(cfg: Config, w: Work, chunks: seq<Chunk>, p: Piece)
    requires Shows(cfg, w, chunks, w.section, "", []) && w.parts == [] && p.kind != Narrative
    ensures Shows(cfg, AddSingle(w, p), chunks + [NewChunk(cfg, p.section, p.text, p.kind, p.keywords)], p.section,
                  "", [])
  {
    BodyOfOne("", p);
    FrontOfAppend(w.drafts, Draft(p.section, "", [p], p.kind));
  }

  lemma PartsAppend(tail: string, parts: seq<Piece>, p: Piece)
    ensures Body(tail, parts + [p]) == Glue(Body(tail, parts), p.text)
    ensures KeywordsOf(parts + [p]) == MergeKeywords(KeywordsOf(parts), p.keywords)
  {
    FrontOfAppend(parts, p);
  }

  lemma EnteredFacts(cfg: Config, pieces: seq<Piece>, p: Piece)
    requires ArePieces(pieces) && p.kind == Narrative
    ensures var w := Enter(WorkAfter(cfg, pieces), p.section);
            && w.section == p.section && IsFilled(w.tail, w.parts) && (w.parts == [] ==> w.tail == "")
            && (w.parts != [] ==> w == WorkAfter(cfg, pieces))
            && WorkAfter(cfg, pieces + [p]) == Add(cfg, w, p)
  {
    WorkKeeps(cfg, pieces);
    CloseKeeps(cfg, WorkAfter(cfg, pieces));
    EnterKeeps(cfg, WorkAfter(cfg, pieces), p.section);
    WorkAppend(cfg, pieces, p);
  }

  /** Adds a narrative paragraph to the builder, ending the chunk first if it would grow too long. */
  method AddPart(cfg: Config, ghost pieces: seq<Piece>, p: Piece, chunks: seq<Chunk>, builder: string,
                 keywords: seq<string>)
    returns (chunks': seq<Chunk>, builder': string, keywords': seq<string>)
    requires ArePieces(pieces) && IsPiece(p) && p.kind == Narrative
    requires Shows(cfg, Enter(WorkAfter(cfg, pieces), p.section), chunks, p.section, builder, keywords)
    ensures Shows(cfg, WorkAfter(cfg, pieces + [p]), chunks', p.section, builder', keywords')
  {
    chunks', builder', keywords' := chunks, builder, keywords;
    ghost var w := Enter(WorkAfter(cfg, pieces), p.section);
    EnteredFacts(cfg, pieces, p);
    BodyIsTrimmed(w.tail, w.parts);
    var candidate := if builder != "" then builder + "\n\n" + p.text else p.text;
    ghost var tail, parts := w.tail, w.parts;
    if |candidate| > cfg.chunkSize && builder != "" {
      CloseDrafts(w);
      var text := Trim(builder);
      chunks' := FlushBuilder(cfg, pieces, p.section, chunks, builder, keywords);
      builder', keywords' := "", [];
      if cfg.overlap > 0 {
        builder' := TrimToLast(text, cfg.overlap);
      }
      tail, parts := builder', [];
    }
    PartsAppend(tail, parts, p);
    assert [] + [p] == [p];
    if builder' != "" {
      builder' := builder' + "\n\n";
    }
    builder' := builder' + p.text;
    keywords' := MergeKeywords(keywords', p.keywords);
  }

  /** A fact or a question with its answer ends the open chunk and makes one of its own. */
  method TakeSingle(cfg: Config, ghost pieces: seq<Piece>, p: Piece, chunks: seq<Chunk>, section: string,
                    builder: string, keywords: seq<string>)
    returns (chunks': seq<Chunk>, builder': string, keywords': seq<string>)
    requires ArePieces(pieces) && p.kind != Narrative
    requires Shows(cfg, WorkAfter(cfg, pieces), chunks, section, builder, keywords)
    ensures Shows(cfg, WorkAfter(cfg, pieces + [p]), chunks', p.section, builder', keywords')
  {
    chunks', builder', keywords' := chunks, builder, keywords;
    ghost var w := WorkAfter(cfg, pieces);
    WorkKeeps(cfg, pieces);
    CloseKeeps(cfg, w);
    BodyIsTrimmed(w.tail, w.parts);
    WorkAppend(cfg, pieces, p);
    if builder != "" {
      chunks' := FlushBuilder(cfg, pieces, section, chunks, builder, keywords);
      builder', keywords' := "", [];
    }
    SingleShows(cfg, Close(w), chunks', p);
    chunks' := chunks' + [NewChunk(cfg, p.section, p.text, p.kind, p.keywords)];
  }

  /** A narrative paragraph joins the open chunk, unless a new section starts. */
  method TakeNarrative(cfg: Config, ghost pieces: seq<Piece>, p: Piece, chunks: seq<Chunk>, section: string,
                       builder: string, keywords: seq<string>)
    returns (chunks': seq<Chunk>, builder': string, keywords': seq<string>)
    requires ArePieces(pieces) && IsPiece(p) && p.kind == Narrative
    requires Shows(cfg, WorkAfter(cfg, pieces), chunks, section, builder, keywords)
    ensures Shows(cfg, WorkAfter(cfg, pieces + [p]), chunks', p.section, builder', keywords')
  {
    chunks', builder', keywords' := chunks, builder, keywords;
    if builder != "" && p.section != section {
      chunks' := FlushBuilder(cfg, pieces, section, chunks, builder, keywords);
      builder', keywords' := "", [];
    }
    chunks', builder', keywords' := AddPart(cfg, pieces, p, chunks', builder', keywords');
  }

  /** The loop's variables show the work on the paragraphs so far. */
  ghost predicate ShowsAll(cfg: Config, ps: seq<Paragraph>, chunks: seq<Chunk>, section: string, builder: string,
                           keywords: seq<string>) {
    && Shows(cfg, WorkAfter(cfg, Pieces(cfg.path, ps)), chunks, section, builder, keywords)
    && section == CurrentSection(cfg.path, Pieces(cfg.path, ps))
  }

  /** One turn of the loop. */
  method TakeParagraph(cfg: Config, ghost before: seq<Paragraph>, item: Paragraph,
                       chunks: seq<Chunk>, section: string, builder: string, keywords: seq<string>)
    returns (chunks': seq<Chunk>, section': string, builder': string, keywords': seq<string>)
    requires ShowsAll(cfg, before, chunks, section, builder, keywords)
    ensures ShowsAll(cfg, before + [item], chunks', section', builder', keywords')
  {
    chunks', section', builder', keywords' := chunks, section, builder, keywords;
    ghost var pieces := Pieces(cfg.path, before);
    FrontOfAppend(before, item);
    assert Pieces(cfg.path, before + [item]) == Extended(cfg.path, pieces, item);
    var part := Trim(item.text);
    if part != "" {
      var next := if item.section != "" then item.section else section;
      var p := Piece(next, part, item.kind, item.keywords);
      TrimFacts(item.text);
      PiecesHaveText(cfg.path, before);
      if item.kind != Narrative {
        chunks', builder', keywords' := TakeSingle(cfg, pieces, p, chunks, section, builder, keywords);
      } else {
        chunks', builder', keywords' := TakeNarrative(cfg, pieces, p, chunks, section, builder, keywords);
      }
      section' := next;
    }
  }

  method ChunkDocument(site: string, path: string, paragraphs: seq<Paragraph>, chunkSize: int, overlap: int)
    returns (chunks: seq<Chunk>)
    ensures chunks == Output(Effective(site, path, chunkSize, overlap), paragraphs)
  {
    var cfg := Effective(site, path, chunkSize, overlap);
    chunks := ChunkParagraphs(cfg, paragraphs);
  }

  /** The loop over the paragraphs, with the sizes settled. */
  method ChunkParagraphs(cfg: Config, paragraphs: seq<Paragraph>) returns (chunks: seq<Chunk>)
    ensures chunks == Output(cfg, paragraphs)
  {
    var builder, section, keywords := "", cfg.path, [];
    chunks := [];
    for i := 0 to |paragraphs|
      invariant ShowsAll(cfg, paragraphs[..i], chunks, section, builder, keywords)
    {
      assert paragraphs[..i + 1] == paragraphs[..i] + [paragraphs[i]];
      chunks, section, builder, keywords :=
        TakeParagraph(cfg, paragraphs[..i], paragraphs[i], chunks, section, builder, keywords);
    }
    assert paragraphs[..|paragraphs|] == paragraphs;
    if builder != "" {
      PiecesHaveText(cfg.path, paragraphs);
      chunks := FlushBuilder(cfg, Pieces(cfg.path, paragraphs), section, chunks, builder, keywords);
    }
    chunks := DedupeChunks(chunks);
  }
}
