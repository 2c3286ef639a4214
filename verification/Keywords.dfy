/** Keyword lists: each keyword on one line, cut to a maximal length, none blank, short or twice. */
module Keywords {
  import opened Text
  import opened NormalText
  import opened Words

  const MAX_KEYWORD_CHARS: nat := 36
  const MIN_KEYWORD_CHARS: nat := 2

  /** White space collapsed, also across lines. */
  function Inline(text: string): string {
    Collapse(Trim(text))
  }

  function Keyword(item: string): string {
    var text := Inline(item);
    if |text| > MAX_KEYWORD_CHARS then Trim(text[..MAX_KEYWORD_CHARS]) else text
  }

  function NormalizeKeywords(items: seq<string>): seq<string> {
    if items == [] then []
    else
      var front, keyword := NormalizeKeywords(items[..|items| - 1]), Keyword(items[|items| - 1]);
      if |keyword| < MIN_KEYWORD_CHARS || keyword in front then front else front + [keyword]
  }

  function MergeKeywords(left: seq<string>, right: seq<string>): seq<string> {
    if left == [] then NormalizeKeywords(right)
    else if right == [] then NormalizeKeywords(left)
    else NormalizeKeywords(left + right)
  }

  method CollectKeywords(items: seq<string>) returns (keywords: seq<string>)
    ensures keywords == NormalizeKeywords(items)
  {
    var seen: set<string> := {};
    keywords := [];
    for i := 0 to |items|
      invariant keywords == NormalizeKeywords(items[..i])
      invariant forall k :: k in seen <==> k in keywords
    {
      assert items[..i + 1][..i] == items[..i];
      var keyword := Keyword(items[i]);
      if |keyword| >= MIN_KEYWORD_CHARS && keyword !in seen {
        seen := seen + {keyword};
        keywords := keywords + [keyword];
      }
    }
    assert items[..|items|] == items;
  }

  // ----- What every list keeps

  ghost predicate AreKeywords(keywords: seq<string>) {
    && (forall i :: 0 <= i < |keywords| ==> OnOneLine(keywords[i]) && |keywords[i]| >= MIN_KEYWORD_CHARS)
    && (forall i, j :: 0 <= i < j < |keywords| ==> keywords[i] != keywords[j])
  }

  lemma {:induction false} JoinOnOneLine(parts: seq<string>)
    requires forall i :: 0 <= i < |parts| ==> forall k :: 0 <= k < |parts[i]| ==> !IsSpace(parts[i][k])
    ensures OnOneLine(Join(parts, " "))
  {
    if |parts| > 1 {
      JoinOnOneLine(parts[1..]);
    }
  }

  lemma KeywordOnOneLine(item: string)
    ensures OnOneLine(Keyword(item))
  {
    var text := Inline(item);
    JoinOnOneLine(Fields(Trim(item)));
    if |text| > MAX_KEYWORD_CHARS {
      var before, after := TrimIsInside(text[..MAX_KEYWORD_CHARS]);
      var cut := Keyword(item);
      forall i | 0 <= i < |cut| ensures cut[i] != '\n' {
        assert cut[i] == (before + cut + after)[|before| + i];
      }
    }
  }

  /** Whatever the items: keywords are on one line each, at least two characters long, and no two are equal. */
  lemma {:induction false} KeywordsAreKeywords(items: seq<string>)
    ensures AreKeywords(NormalizeKeywords(items))
  {
    if items != [] {
      KeywordsAreKeywords(items[..|items| - 1]);
      KeywordOnOneLine(items[|items| - 1]);
    }
  }

  /** A keyword is short and single-spaced, so normalizing it again changes nothing. */
  lemma KeywordIsStable(item: string)
    ensures |Keyword(item)| <= MAX_KEYWORD_CHARS && Keyword(Keyword(item)) == Keyword(item)
  {
    var text, k := Inline(item), Keyword(item);
    FieldsAreWords(Trim(item));
    JoinIsSpaced(Fields(Trim(item)));
    if |text| > MAX_KEYWORD_CHARS {
      CutIsSpaced(text, MAX_KEYWORD_CHARS);
      TrimFacts(text[..MAX_KEYWORD_CHARS]);
    }
    TrimFacts(k);
    SpacedIsCollapsed(k);
  }

  /** Cutting a spaced text costs at most the blank that the cut leaves at its end. */
  lemma CutOfSpaced(s: string, n: nat)
    requires IsSpaced(s) && 0 < n <= |s|
    ensures Trim(s[..n]) <= s && n - 1 <= |Trim(s[..n])| <= n
  {
    var cut := s[..n];
    assert TrimLeft(cut) == cut;
    TrimRightFacts(cut);
    if IsSpace(cut[n - 1]) {
      assert n > 1 && !IsSpace(s[n - 2]);
      assert cut[..n - 1][n - 2] == s[n - 2];
      assert TrimRight(cut) == TrimRight(cut[..n - 1]) == cut[..n - 1];
    }
  }

  /** A keyword is the item's words with single blanks between them, or the first characters of that, as many as fit. */
  lemma KeywordIsCut(item: string)
    ensures Inline(item) == Join(Fields(item), " ")
    ensures |Inline(item)| <= MAX_KEYWORD_CHARS ==> Keyword(item) == Inline(item)
    ensures |Inline(item)| > MAX_KEYWORD_CHARS ==>
              Keyword(item) <= Inline(item) && MAX_KEYWORD_CHARS - 1 <= |Keyword(item)| <= MAX_KEYWORD_CHARS
  {
    FieldsOfTrim(item);
    FieldsAreWords(item);
    JoinIsSpaced(Fields(item));
    if |Inline(item)| > MAX_KEYWORD_CHARS {
      CutOfSpaced(Inline(item), MAX_KEYWORD_CHARS);
    }
  }

  ghost predicate Yields(items: seq<string>, k: string) {
    |k| >= MIN_KEYWORD_CHARS && exists i :: 0 <= i < |items| && Keyword(items[i]) == k
  }

  /** The list holds the keyword of every item that has a long enough one, and no other. */
  lemma {:induction false} NormalizeHolds(items: seq<string>, k: string)
    ensures k in NormalizeKeywords(items) <==> Yields(items, k)
  {
    if items != [] {
      var n := |items| - 1;
      NormalizeHolds(items[..n], k);
      YieldsOfBoth(items[..n], [items[n]], k);
      assert items[..n] + [items[n]] == items;
      YieldsOfOne(items[n], k);
    }
  }

  lemma YieldsOfOne(item: string, k: string)
    ensures Yields([item], k) <==> |k| >= MIN_KEYWORD_CHARS && Keyword(item) == k
  {
    var items := [item];
    if Keyword(item) == k {
      assert Keyword(items[0]) == k;
    }
  }

  lemma ListIsStable(items: seq<string>, k: string)
    requires k in NormalizeKeywords(items)
    ensures Keyword(k) == k && |k| >= MIN_KEYWORD_CHARS
  {
    NormalizeHolds(items, k);
    var i :| 0 <= i < |items| && Keyword(items[i]) == k;
    KeywordIsStable(items[i]);
  }

  /** A list of keywords as normalizing leaves them. */
  ghost predicate AreStable(keywords: seq<string>) {
    forall i :: 0 <= i < |keywords| ==> Keyword(keywords[i]) == keywords[i] && |keywords[i]| >= MIN_KEYWORD_CHARS
  }

  lemma NormalizedAreStable(items: seq<string>)
    ensures AreStable(NormalizeKeywords(items))
  {
    var keywords := NormalizeKeywords(items);
    forall i | 0 <= i < |keywords| ensures Keyword(keywords[i]) == keywords[i] && |keywords[i]| >= MIN_KEYWORD_CHARS {
      ListIsStable(items, keywords[i]);
    }
  }

  /** Normalizing keywords keeps them all. */
  lemma StableStays(keywords: seq<string>, k: string)
    requires AreStable(keywords)
    ensures k in NormalizeKeywords(keywords) <==> k in keywords
  {
    NormalizeHolds(keywords, k);
    if k in keywords {
      var i :| 0 <= i < |keywords| && keywords[i] == k;
      assert Keyword(keywords[i]) == k;
    }
  }

  /** Merging adds the right list's keywords to the left one's. */
  lemma MergeHolds(left: seq<string>, right: seq<string>, k: string)
    requires AreStable(left)
    ensures AreStable(MergeKeywords(left, right))
    ensures k in MergeKeywords(left, right) <==> k in left || k in NormalizeKeywords(right)
  {
    StableStays(left, k);
    if left == [] {
      NormalizedAreStable(right);
    } else if right == [] {
      NormalizedAreStable(left);
    } else {
      NormalizedAreStable(left + right);
      NormalizeHolds(left + right, k);
      NormalizeHolds(left, k);
      NormalizeHolds(right, k);
      YieldsOfBoth(left, right, k);
    }
  }

  lemma YieldsOfBoth(left: seq<string>, right: seq<string>, k: string)
    ensures Yields(left + right, k) <==> Yields(left, k) || Yields(right, k)
  {
    var all := left + right;
    if Yields(left, k) {
      var i :| 0 <= i < |left| && Keyword(left[i]) == k;
      assert Keyword(all[i]) == k;
    }
    if Yields(right, k) {
      var i :| 0 <= i < |right| && Keyword(right[i]) == k;
      assert Keyword(all[|left| + i]) == k;
    }
    if Yields(all, k) {
      var i :| 0 <= i < |all| && Keyword(all[i]) == k;
      assert i < |left| ==> Keyword(left[i]) == k;
      assert i >= |left| ==> Keyword(right[i - |left|]) == k;
    }
  }

  // ----- Words without white space stay as they are

  lemma WordIsInline(s: string)
    requires IsWord(s)
    ensures Trim(s) == s && Inline(s) == s
  {
    TrimFacts(s);
    WordIsField(s);
  }

  ghost predicate AreWords(items: seq<string>) {
    && (forall i :: 0 <= i < |items| ==> IsWord(items[i]) && MIN_KEYWORD_CHARS <= |items[i]| <= MAX_KEYWORD_CHARS)
    && (forall i, j :: 0 <= i < j < |items| ==> items[i] != items[j])
  }

  lemma {:induction false} WordsAreKeywords(items: seq<string>)
    requires AreWords(items)
    ensures NormalizeKeywords(items) == items
  {
    if items != [] {
      var n := |items| - 1;
      WordsAreKeywords(items[..n]);
      WordIsInline(items[n]);
      assert Keyword(items[n]) == items[n] && items[n] !in items[..n];
      assert items == items[..n] + [items[n]];
    }
  }
}
