/** The words of a text: what normalizing keeps. */
module Words {
  import opened Text
  import opened NormalText

  predicate IsWord(s: string) {
    s != "" && forall i :: 0 <= i < |s| ==> !IsSpace(s[i])
  }

  ghost predicate AreAllWords(words: seq<string>) {
    forall i :: 0 <= i < |words| ==> IsWord(words[i])
  }

  lemma WordLengthIs(s: string, n: nat)
    requires n <= |s| && (forall i :: 0 <= i < n ==> !IsSpace(s[i])) && (n < |s| ==> IsSpace(s[n]))
    ensures WordLength(s) == n
  {
  }

  lemma FirstFieldOf(a: string, c: char, b: string)
    requires a != "" && !IsSpace(a[0]) && IsSpace(c)
    ensures Fields(a + [c] + b) == [a[..WordLength(a)]] + Fields(a[WordLength(a)..] + [c] + b)
  {
    var all, n := a + [c] + b, WordLength(a);
    assert all[n] == if n < |a| then a[n] else c;
    WordLengthIs(all, n);
    assert all[n..] == a[n..] + [c] + b && all[..n] == a[..n];
  }

  /** White space separates: the words before it, then the words after it. */
  lemma {:induction false} FieldsAround(a: string, c: char, b: string)
    requires IsSpace(c)
    ensures Fields(a + [c] + b) == Fields(a) + Fields(b)
    decreases |a|
  {
    var all := a + [c] + b;
    if a == "" {
      assert all[1..] == b;
    } else if IsSpace(a[0]) {
      FieldsAround(a[1..], c, b);
      assert all[1..] == a[1..] + [c] + b;
    } else {
      var n := WordLength(a);
      FirstFieldOf(a, c, b);
      FieldsAround(a[n..], c, b);
      Regroup([a[..n]], Fields(a[n..]), Fields(b));
    }
  }

  lemma {:induction false} FieldsOfTrimLeft(s: string)
    ensures Fields(TrimLeft(s)) == Fields(s)
  {
    if s != "" && IsSpace(s[0]) {
      FieldsOfTrimLeft(s[1..]);
    }
  }

  lemma {:induction false} FieldsOfTrimRight(s: string)
    ensures Fields(TrimRight(s)) == Fields(s)
  {
    if s != "" && IsSpace(s[|s| - 1]) {
      var n := |s| - 1;
      FieldsOfTrimRight(s[..n]);
      FieldsAround(s[..n], s[n], "");
      assert s[..n] + [s[n]] + "" == s;
    }
  }

  lemma FieldsOfTrim(s: string)
    ensures Fields(Trim(s)) == Fields(s)
  {
    FieldsOfTrimLeft(s);
    FieldsOfTrimRight(TrimLeft(s));
  }

  lemma WordIsField(s: string)
    requires IsWord(s)
    ensures Fields(s) == [s]
  {
    WordLengthIs(s, |s|);
    assert s[..|s|] == s && s[|s|..] == "";
  }

  function FieldsOfAll(parts: seq<string>): seq<string> {
    if parts == [] then [] else Fields(parts[0]) + FieldsOfAll(parts[1..])
  }

  /** Joining with a white-space character joins the words. */
  lemma {:induction false} FieldsOfJoin(parts: seq<string>, c: char)
    requires IsSpace(c)
    ensures Fields(Join(parts, [c])) == FieldsOfAll(parts)
  {
    if |parts| == 1 {
      assert FieldsOfAll(parts) == Fields(parts[0]) + FieldsOfAll([]);
    } else if |parts| > 1 {
      FieldsOfJoin(parts[1..], c);
      FieldsAround(parts[0], c, Join(parts[1..], [c]));
    }
  }

  lemma {:induction false} FieldsOfWords(words: seq<string>)
    requires AreAllWords(words)
    ensures FieldsOfAll(words) == words
  {
    if words != [] {
      WordIsField(words[0]);
      FieldsOfWords(words[1..]);
    }
  }

  lemma FieldsAreWords(s: string)
    ensures AreAllWords(Fields(s))
  {
  }

  /** Collapsing white space keeps the words. */
  lemma FieldsOfCollapse(s: string)
    ensures Fields(Collapse(s)) == Fields(s)
  {
    FieldsAreWords(s);
    FieldsOfJoin(Fields(s), ' ');
    FieldsOfWords(Fields(s));
  }

  lemma {:induction false} BlankHasNoFields(s: string)
    requires forall i :: 0 <= i < |s| ==> IsSpace(s[i])
    ensures Fields(s) == []
  {
    if s != "" {
      BlankHasNoFields(s[1..]);
    }
  }

  lemma {:induction false} CleanKeepsFields(lines: seq<string>)
    ensures FieldsOfAll(Clean(lines)) == FieldsOfAll(lines)
  {
    if lines != [] {
      CleanKeepsFields(lines[1..]);
      TrimFacts(lines[0]);
      FieldsOfTrim(lines[0]);
      FieldsOfCollapse(Trim(lines[0]));
      if Trim(lines[0]) == "" {
        BlankHasNoFields(lines[0]);
        assert CleanLine(lines[0]) + Clean(lines[1..]) == Clean(lines[1..]);
      } else {
        assert Clean(lines)[1..] == Clean(lines[1..]);
      }
    }
  }

  lemma {:induction false} LinesRejoin(s: string)
    ensures Join(Lines(s), "\n") == s
  {
    if s != "" {
      var rest := Lines(s[1..]);
      LinesRejoin(s[1..]);
      if s[0] == '\n' {
        assert ([""] + rest)[1..] == rest;
      } else {
        var all := [[s[0]] + rest[0]] + rest[1..];
        assert all[1..] == rest[1..];
      }
    }
  }

  /** Normalizing keeps every word, in order, and adds none. */
  lemma NormalizeKeepsWords(s: string)
    ensures Fields(Normalize(s)) == Fields(s)
  {
    NormalizeIsJoin(s);
    FieldsOfJoin(CleanLines(s), '\n');
    CleanKeepsFields(Lines(s));
    FieldsOfJoin(Lines(s), '\n');
    LinesRejoin(s);
  }

  // ----- Texts that are collapsed already

  /** Trimmed, with single blanks as the only white space. */
  ghost predicate IsSpaced(s: string) {
    && IsTrimmed(s)
    && (forall i :: 0 <= i < |s| && IsSpace(s[i]) ==> s[i] == ' ')
    && forall i :: 0 <= i < |s| - 1 ==> !(IsSpace(s[i]) && IsSpace(s[i + 1]))
  }

  lemma SuffixIsSpaced(s: string, k: nat)
    requires IsSpaced(s) && k < |s| && !IsSpace(s[k])
    ensures IsSpaced(s[k..])
  {
    assert forall i :: 0 <= i < |s| - k ==> s[k..][i] == s[k + i];
  }

  lemma FieldsOfFirst(s: string, n: nat)
    requires n == WordLength(s) && 0 < n < |s|
    ensures Fields(s) == [s[..n]] + Fields(s[n + 1..])
  {
    var tail := s[n..];
    assert Fields(s) == [s[..n]] + Fields(tail);
    assert tail[0] == s[n] && tail[1..] == s[n + 1..];
    assert Fields(tail) == Fields(tail[1..]);
  }

  lemma BlankInside(s: string, n: nat)
    requires IsSpaced(s) && n < |s| && IsSpace(s[n])
    ensures s[n] == ' ' && 0 < n < |s| - 1 && !IsSpace(s[n + 1])
  {
  }

  lemma SplitAtBlank(s: string, n: nat)
    requires n < |s| && s[n] == ' '
    ensures s == s[..n] + " " + s[n + 1..]
  {
  }

  /** The first word of a spaced text, a single blank, and the spaced rest. */
  lemma FirstWord(s: string)
    requires IsSpaced(s) && WordLength(s) < |s|
    ensures var n := WordLength(s);
            && n + 1 < |s| && s == s[..n] + " " + s[n + 1..] && IsSpaced(s[n + 1..]) && !IsSpace(s[n + 1])
            && Fields(s) == [s[..n]] + Fields(s[n + 1..])
  {
    var n := WordLength(s);
    BlankInside(s, n);
    SuffixIsSpaced(s, n + 1);
    SplitAtBlank(s, n);
    FieldsOfFirst(s, n);
  }

  lemma {:induction false} SpacedIsCollapsed(s: string)
    requires IsSpaced(s)
    ensures Collapse(s) == s
    decreases |s|
  {
    var n := WordLength(s);
    if n < |s| {
      var rest := s[n + 1..];
      FirstWord(s);
      SpacedIsCollapsed(rest);
      assert rest[0] == s[n + 1];
      FieldsOfText(rest);
      JoinOfCons(s[..n], Fields(rest));
    } else if s != "" {
      WordIsField(s);
    }
  }

  lemma JoinOfCons(word: string, words: seq<string>)
    requires words != []
    ensures Join([word] + words, " ") == word + " " + Join(words, " ")
  {
    assert ([word] + words)[1..] == words;
  }

  lemma {:induction false} JoinIsSpaced(words: seq<string>)
    requires AreAllWords(words)
    ensures IsSpaced(Join(words, " ")) && (words != [] ==> Join(words, " ") != "")
  {
    if |words| == 1 {
      assert IsWord(words[0]);
    } else if |words| > 1 {
      JoinIsSpaced(words[1..]);
      assert IsWord(words[0]);
      var w, rest := words[0], Join(words[1..], " ");
      var all := w + " " + rest;
      assert Join(words, " ") == all;
      forall i | 0 <= i < |all|
        ensures all[i] == if i < |w| then w[i] else if i == |w| then ' ' else rest[i - |w| - 1]
      {
      }
    }
  }

  /** Cutting a spaced text and trimming it leaves it spaced. */
  lemma CutIsSpaced(s: string, n: nat)
    requires IsSpaced(s) && n <= |s|
    ensures IsSpaced(Trim(s[..n]))
  {
    var cut := s[..n];
    var before, after := TrimIsInside(cut);
    TrimFacts(cut);
    var t := Trim(cut);
    forall i | 0 <= i < |t| ensures t[i] == s[|before| + i] {
      assert t[i] == (before + t + after)[|before| + i];
    }
  }

  // ----- The lines of a normalized text

  ghost predicate OnOneLine(s: string) {
    forall i :: 0 <= i < |s| ==> s[i] != '\n'
  }

  lemma {:induction false} OneLine(s: string)
    requires OnOneLine(s)
    ensures Lines(s) == [s]
  {
    if s != "" {
      OneLine(s[1..]);
      assert [s[0]] + s[1..] == s;
    }
  }

  lemma {:induction false} LinesOfJoin(lines: seq<string>)
    requires lines != [] && forall i :: 0 <= i < |lines| ==> OnOneLine(lines[i])
    ensures Lines(Join(lines, "\n")) == lines
  {
    OneLine(lines[0]);
    if |lines| == 1 {
      assert lines == [lines[0]];
    } else {
      var rest := lines[1..];
      LinesOfJoin(rest);
      LinesConcat(lines[0], Join(rest, "\n"));
      assert lines[0] + "\n" + Join(rest, "\n") == lines[0] + ("\n" + Join(rest, "\n"));
      assert lines == [lines[0]] + rest;
    }
  }

  /** A line as normalizing leaves it: not blank, trimmed, with single blanks as the only white space. */
  ghost predicate IsNormalLine(line: string) {
    line != "" && IsSpaced(line)
  }

  ghost predicate AreNormalLines(lines: seq<string>) {
    forall i :: 0 <= i < |lines| ==> IsNormalLine(lines[i])
  }

  lemma {:induction false} CleanIsNormal(lines: seq<string>)
    ensures AreNormalLines(Clean(lines))
  {
    if lines != [] {
      CleanIsNormal(lines[1..]);
      if Trim(lines[0]) != "" {
        CollapseFacts(lines[0]);
        FieldsAreWords(Trim(lines[0]));
        JoinIsSpaced(Fields(Trim(lines[0])));
      }
    }
  }

  lemma {:induction false} NormalIsClean(lines: seq<string>)
    requires AreNormalLines(lines)
    ensures Clean(lines) == lines
  {
    if lines != [] {
      assert IsNormalLine(lines[0]);
      NormalIsClean(lines[1..]);
      TrimFacts(lines[0]);
      SpacedIsCollapsed(lines[0]);
      assert [lines[0]] + lines[1..] == lines;
    }
  }

  lemma NormalIsOneLine(line: string)
    requires IsNormalLine(line)
    ensures OnOneLine(line)
  {
    assert IsSpace('\n');
  }

  /** A normalized text is empty or made of normal lines, and normalizing it again changes nothing. */
  lemma NormalizeIsStable(s: string)
    ensures Normalize(s) != "" ==> AreNormalLines(Lines(Normalize(s)))
    ensures Normalize(Normalize(s)) == Normalize(s)
  {
    var lines := CleanLines(s);
    NormalizeIsJoin(s);
    CleanIsNormal(Lines(s));
    NormalizeIsJoin(Normalize(s));
    if lines == [] {
      BlankLine();
    } else {
      forall i | 0 <= i < |lines| ensures OnOneLine(lines[i]) {
        NormalIsOneLine(lines[i]);
      }
      LinesOfJoin(lines);
      NormalIsClean(lines);
    }
  }
}
