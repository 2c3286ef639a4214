/**
  When a chunk ends and what the next one repeats: paragraphs of a section are merged for as long as they fit, and
  a chunk that follows for lack of room starts with the last characters of the chunk before it.
 */
module ChunkMerging {
  import opened Text
  import opened NormalText
  import opened Keywords
  import opened ChunkIds
  import opened Chunker
  import opened ChunkOutput

  // ----- What an overlap is

  /** The end of the text within the limit, without the white space in front. */
  ghost predicate IsOverlap(text: string, tail: string, limit: nat) {
    && |tail| <= |text| && |tail| <= limit && tail == text[|text| - |tail|..]
    && (tail != "" ==> !IsSpace(tail[0]))
    && forall i :: 0 <= i < |text| - |tail| && |text| - limit <= i ==> IsSpace(text[i])
  }

  lemma SuffixOfSuffix(text: string, k: nat, tail: string)
    requires k <= |text| && IsOverlap(text[k..], tail, |text| - k)
    ensures IsOverlap(text, tail, |text| - k)
  {
    assert text[k..][|text| - k - |tail|..] == text[|text| - |tail|..];
    forall i | 0 <= i < |text| - |tail| && k <= i ensures IsSpace(text[i]) {
      assert text[i] == text[k..][i - k];
    }
  }

  lemma {:induction false} TrimLeftSkips(s: string)
    ensures IsOverlap(s, TrimLeft(s), |s|)
  {
    if s != "" && IsSpace(s[0]) {
      TrimLeftSkips(s[1..]);
      SuffixOfSuffix(s, 1, TrimLeft(s));
    } else {
      assert s[|s| - |s|..] == s;
    }
  }

  lemma TrimRightIdle(s: string)
    requires s != "" ==> !IsSpace(s[|s| - 1])
    ensures TrimRight(s) == s
  {
  }

  /** The overlap of a trimmed text is its end. */
  lemma TrimToLastIsOverlap(text: string, limit: nat)
    requires IsTrimmed(text)
    ensures IsOverlap(text, TrimToLast(text, limit), limit)
  {
    if limit != 0 && |text| > limit {
      var k := |text| - limit;
      var end := text[k..];
      TrimLeftSkips(end);
      TrimLeftFacts(end);
      TrimRightIdle(TrimLeft(end));
      SuffixOfSuffix(text, k, TrimLeft(end));
    }
  }

  // ----- How drafts follow each other

  /**
    Two narratives of one section follow each other only where the second one's first paragraph no longer fits, and
    then the second starts with the overlap of the first. No other chunk repeats anything.
   */
  ghost predicate Continues(cfg: Config, a: Draft, b: Draft) {
    if a.kind == Narrative && b.kind == Narrative && a.section == b.section then
      && b.parts != [] && |Body(a.tail, a.parts)| + 2 + |b.parts[0].text| > cfg.chunkSize
      && IsOverlap(Body(a.tail, a.parts), b.tail, cfg.overlap)
    else b.tail == ""
  }

  ghost predicate AreMerged(cfg: Config, drafts: seq<Draft>) {
    && (drafts != [] ==> drafts[0].tail == "")
    && forall d :: 0 < d < |drafts| ==> Continues(cfg, drafts[d - 1], drafts[d])
  }

  ghost predicate MayFollow(cfg: Config, drafts: seq<Draft>, d: Draft) {
    if drafts == [] then d.tail == "" else Continues(cfg, Last(drafts), d)
  }

  lemma MergedAppend(cfg: Config, drafts: seq<Draft>, d: Draft)
    requires AreMerged(cfg, drafts) && MayFollow(cfg, drafts, d)
    ensures AreMerged(cfg, drafts + [d])
  {
    var all := drafts + [d];
    forall k | 0 < k < |all| ensures Continues(cfg, all[k - 1], all[k]) {
      assert k < |drafts| ==> Continues(cfg, drafts[k - 1], drafts[k]);
    }
  }

  function OpenDraft(w: Work): Draft {
    Draft(w.section, w.tail, w.parts, Narrative)
  }

  /** A new narrative of the section would not follow one of the same section. */
  ghost predicate IsFresh(drafts: seq<Draft>, section: string) {
    drafts == [] || Last(drafts).kind != Narrative || Last(drafts).section != section
  }

  ghost predicate IsMerging(cfg: Config, w: Work) {
    AreMerged(cfg, w.drafts) && (w.parts != [] ==> MayFollow(cfg, w.drafts, OpenDraft(w)))
  }

  /** What holds between paragraphs: an empty builder follows no narrative. */
  ghost predicate IsBetween(cfg: Config, w: Work) {
    && IsWork(cfg, w) && IsMerging(cfg, w)
    && (w.parts == [] ==> w.drafts == [] || Last(w.drafts).kind != Narrative)
  }

  lemma CloseMerges(cfg: Config, w: Work)
    requires IsBetween(cfg, w)
    ensures AreMerged(cfg, Close(w).drafts)
    ensures forall s :: s != w.section || w.parts == [] ==> IsFresh(Close(w).drafts, s)
  {
    CloseDrafts(w);
    if w.parts != [] {
      MergedAppend(cfg, w.drafts, OpenDraft(w));
    }
  }

  lemma AddMerges(cfg: Config, w: Work, p: Piece)
    requires IsWork(cfg, w) && IsMerging(cfg, w) && IsPiece(p)
    requires w.parts == [] ==> IsFresh(w.drafts, w.section)
    ensures IsMerging(cfg, Add(cfg, w, p)) && Add(cfg, w, p).parts != []
  {
    var body := Body(w.tail, w.parts);
    BodyIsTrimmed(w.tail, w.parts);
    CloseDrafts(w);
    if body != "" && |body| + 2 + |p.text| > cfg.chunkSize {
      assert w.parts != [];
      MergedAppend(cfg, w.drafts, OpenDraft(w));
      TrimToLastIsOverlap(body, cfg.overlap);
      FrontOfAppend(w.drafts, OpenDraft(w));
      assert Continues(cfg, OpenDraft(w), OpenDraft(Add(cfg, w, p)));
    } else if w.parts != [] {
      assert (w.parts + [p])[0] == w.parts[0];
    }
  }

  lemma SingleMerges(cfg: Config, w: Work, p: Piece)
    requires IsBetween(cfg, w) && IsPiece(p) && p.kind != Narrative
    ensures IsMerging(cfg, AddSingle(Close(w), p)) && AddSingle(Close(w), p).parts == []
    ensures var drafts := AddSingle(Close(w), p).drafts;
            drafts != [] && Last(drafts).kind != Narrative
  {
    CloseMerges(cfg, w);
    CloseKeeps(cfg, w);
    MergedAppend(cfg, Close(w).drafts, Draft(p.section, "", [p], p.kind));
  }

  lemma EnterMerges(cfg: Config, w: Work, section: string)
    requires IsBetween(cfg, w)
    ensures var w' := Enter(w, section);
            IsMerging(cfg, w') && (w'.parts == [] ==> IsFresh(w'.drafts, section))
  {
    CloseMerges(cfg, w);
    CloseKeeps(cfg, w);
  }

  lemma StepMerges(cfg: Config, w: Work, p: Piece)
    requires IsBetween(cfg, w) && IsPiece(p)
    ensures IsBetween(cfg, Step(cfg, w, p))
  {
    StepKeeps(cfg, w, p);
    if p.kind != Narrative {
      SingleMerges(cfg, w, p);
    } else {
      EnterKeeps(cfg, w, p.section);
      EnterMerges(cfg, w, p.section);
      AddMerges(cfg, Enter(w, p.section), p);
    }
  }

  lemma {:induction false} WorkMerges(cfg: Config, pieces: seq<Piece>)
    requires ArePieces(pieces)
    ensures IsBetween(cfg, WorkAfter(cfg, pieces))
  {
    if pieces != [] {
      assert IsPiece(pieces[|pieces| - 1]);
      WorkMerges(cfg, Front(pieces));
      StepMerges(cfg, WorkAfter(cfg, Front(pieces)), Last(pieces));
    } else {
      BlankWork(cfg);
    }
  }

  /** A document's chunks are merged for as long as paragraphs fit, and repeat the overlap and nothing else. */
  lemma DraftsAreMerged(cfg: Config, ps: seq<Paragraph>)
    ensures AreMerged(cfg, Drafts(cfg, Pieces(cfg.path, ps)))
  {
    PiecesHaveText(cfg.path, ps);
    WorkMerges(cfg, Pieces(cfg.path, ps));
    CloseMerges(cfg, WorkAfter(cfg, Pieces(cfg.path, ps)));
  }

  // ----- Keywords

  ghost predicate SomePieceYields(parts: seq<Piece>, k: string) {
    exists i :: 0 <= i < |parts| && Yields(parts[i].keywords, k)
  }

  lemma SomeOfAppend(parts: seq<Piece>, p: Piece, k: string)
    ensures SomePieceYields(parts + [p], k) <==> SomePieceYields(parts, k) || Yields(p.keywords, k)
  {
    var all := parts + [p];
    assert all[|parts|] == p;
    if SomePieceYields(parts, k) {
      var i :| 0 <= i < |parts| && Yields(parts[i].keywords, k);
      assert Yields(all[i].keywords, k);
    }
  }

  lemma {:induction false} KeywordsOfHolds(parts: seq<Piece>, k: string)
    ensures AreStable(KeywordsOf(parts)) && (k in KeywordsOf(parts) <==> SomePieceYields(parts, k))
  {
    if parts != [] {
      var front, p := Front(parts), Last(parts);
      assert parts == front + [p];
      KeywordsOfHolds(front, k);
      MergeHolds(KeywordsOf(front), p.keywords, k);
      NormalizeHolds(p.keywords, k);
      SomeOfAppend(front, p, k);
    }
  }

  lemma SomeOfOne(p: Piece, k: string)
    ensures SomePieceYields([p], k) <==> Yields(p.keywords, k)
  {
    assert [] + [p] == [p];
    SomeOfAppend([], p, k);
  }

  lemma DraftHasKeywords(cfg: Config, before: seq<Draft>, d: Draft, k: string)
    requires IsDraft(cfg, before, d)
    ensures k in ChunkOf(cfg, d).keywords <==> SomePieceYields(d.parts, k)
  {
    if d.kind != Narrative {
      assert d.parts == [d.parts[0]];
      NormalizeHolds(d.parts[0].keywords, k);
      SomeOfOne(d.parts[0], k);
    } else {
      KeywordsOfHolds(d.parts, k);
      StableStays(KeywordsOf(d.parts), k);
    }
  }

  lemma DraftedAt(cfg: Config, ps: seq<Paragraph>, d: nat)
    requires d < |Drafted(cfg, ps)|
    ensures var drafts := Drafts(cfg, Pieces(cfg.path, ps));
            && d < |drafts| && Drafted(cfg, ps)[d] == ChunkOf(cfg, drafts[d]) && IsDraft(cfg, drafts[..d], drafts[d])
  {
    var drafts := Drafts(cfg, Pieces(cfg.path, ps));
    DocumentIsDrafted(cfg, ps);
    ChunkIndex(cfg, drafts, 0);
    ChunkIndex(cfg, drafts, d);
    DraftAt(cfg, drafts, d);
  }

  /** A chunk has exactly the keywords of its paragraphs. */
  lemma ChunkHasKeywords(cfg: Config, ps: seq<Paragraph>, d: nat, k: string)
    requires d < |Drafted(cfg, ps)|
    ensures d < |Drafts(cfg, Pieces(cfg.path, ps))|
    ensures k in Drafted(cfg, ps)[d].keywords <==> SomePieceYields(Drafts(cfg, Pieces(cfg.path, ps))[d].parts, k)
  {
    var drafts := Drafts(cfg, Pieces(cfg.path, ps));
    DraftedAt(cfg, ps, d);
    DraftHasKeywords(cfg, drafts[..d], drafts[d], k);
  }
}
