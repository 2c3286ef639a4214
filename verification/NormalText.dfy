/** Normalized text: white space collapsed within lines, blank lines dropped. */
module NormalText {
  import opened Text

  function Join(parts: seq<string>, sep: string): string {
    if parts == [] then "" else if |parts| == 1 then parts[0] else parts[0] + sep + Join(parts[1..], sep)
  }

  function Lines(s: string): (r: seq<string>)
    ensures |r| >= 1
  {
    if s == "" then [""]
    else
      var rest := Lines(s[1..]);
      if s[0] == '\n' then [""] + rest else [[s[0]] + rest[0]] + rest[1..]
  }

  /** The length of the leading run without white space. */
  function WordLength(s: string): (n: nat)
    ensures n <= |s| && (forall i :: 0 <= i < n ==> !IsSpace(s[i])) && (n < |s| ==> IsSpace(s[n]))
  {
    if s == "" || IsSpace(s[0]) then 0 else 1 + WordLength(s[1..])
  }

  function Fields(s: string): (r: seq<string>)
    ensures forall i :: 0 <= i < |r| ==> r[i] != "" && forall k :: 0 <= k < |r[i]| ==> !IsSpace(r[i][k])
    decreases |s|
  {
    if s == "" then []
    else if IsSpace(s[0]) then Fields(s[1..])
    else [s[..WordLength(s)]] + Fields(s[WordLength(s)..])
  }

  function Collapse(line: string): string {
    Join(Fields(line), " ")
  }

  function CleanLine(line: string): seq<string> {
    if Trim(line) == "" then [] else [Collapse(Trim(line))]
  }

  function Clean(lines: seq<string>): seq<string> {
    if lines == [] then []
    else CleanLine(lines[0]) + Clean(lines[1..])
  }

  function CleanLines(s: string): seq<string> {
    Clean(Lines(s))
  }

  function Normalize(s: string): string {
    Trim(Join(CleanLines(s), "\n"))
  }

  // ----- Trimming

  predicate IsTrimmed(s: string) {
    s == "" || (!IsSpace(s[0]) && !IsSpace(s[|s| - 1]))
  }

  lemma {:induction false} TrimLeftFacts(s: string)
    ensures |TrimLeft(s)| <= |s| && (TrimLeft(s) != "" ==> !IsSpace(TrimLeft(s)[0]))
    ensures (TrimLeft(s) == "") == (forall i :: 0 <= i < |s| ==> IsSpace(s[i]))
    ensures TrimLeft(s) != "" ==> TrimLeft(s)[|TrimLeft(s)| - 1] == s[|s| - 1]
  {
    if s != "" && IsSpace(s[0]) {
      TrimLeftFacts(s[1..]);
      assert forall i :: 1 <= i < |s| ==> s[i] == s[1..][i - 1];
    }
  }

  lemma {:induction false} TrimRightFacts(s: string)
    ensures TrimRight(s) <= s && (TrimRight(s) != "" ==> !IsSpace(TrimRight(s)[|TrimRight(s)| - 1]))
    ensures s != "" && !IsSpace(s[0]) ==> TrimRight(s) != "" && TrimRight(s)[0] == s[0]
  {
    if s != "" && IsSpace(s[|s| - 1]) {
      TrimRightFacts(s[..|s| - 1]);
    }
  }

  lemma TrimFacts(s: string)
    ensures |Trim(s)| <= |s| && IsTrimmed(Trim(s))
    ensures (Trim(s) == "") == (forall i :: 0 <= i < |s| ==> IsSpace(s[i]))
    ensures IsTrimmed(s) ==> Trim(s) == s
  {
    TrimLeftFacts(s);
    TrimRightFacts(TrimLeft(s));
  }

  lemma {:induction false} TrimLeftIsSuffix(s: string) returns (n: nat)
    ensures n <= |s| && TrimLeft(s) == s[n..]
  {
    n := 0;
    if s != "" && IsSpace(s[0]) {
      n := TrimLeftIsSuffix(s[1..]);
      n := n + 1;
    }
  }

  lemma TrimIsInside(s: string) returns (before: string, after: string)
    ensures s == before + Trim(s) + after
  {
    var n := TrimLeftIsSuffix(s);
    var t := TrimLeft(s);
    TrimRightFacts(t);
    before, after := Around(s, n, Trim(s));
  }

  lemma Around(s: string, n: nat, middle: string) returns (before: string, after: string)
    requires n <= |s| && middle <= s[n..]
    ensures s == before + middle + after
  {
    before, after := s[..n], s[n + |middle|..];
    assert middle == s[n..n + |middle|];
  }

  // ----- Lengths

  /** The length of the parts with one separator after each. */
  function Weight(parts: seq<string>): nat {
    if parts == [] then 0 else |parts[0]| + 1 + Weight(parts[1..])
  }

  lemma {:induction false} JoinLength(parts: seq<string>, sep: string)
    requires |sep| == 1
    ensures |Join(parts, sep)| == if parts == [] then 0 else Weight(parts) - 1
  {
    if |parts| > 1 {
      JoinLength(parts[1..], sep);
    }
  }

  lemma {:induction false} LinesWeigh(s: string)
    ensures Weight(Lines(s)) == |s| + 1
  {
    if s != "" {
      LinesWeigh(s[1..]);
      var rest := Lines(s[1..]);
      if s[0] == '\n' {
        assert ([""] + rest)[1..] == rest;
      } else {
        assert ([[s[0]] + rest[0]] + rest[1..])[1..] == rest[1..];
      }
    }
  }

  lemma {:induction false} FieldsWeigh(s: string)
    ensures Weight(Fields(s)) <= |s| + 1
    decreases |s|
  {
    if s != "" {
      if IsSpace(s[0]) {
        FieldsWeigh(s[1..]);
      } else {
        var n := WordLength(s);
        var rest := s[n..];
        assert ([s[..n]] + Fields(rest))[1..] == Fields(rest);
        if rest != "" {
          assert Fields(rest) == Fields(rest[1..]);
          FieldsWeigh(rest[1..]);
        }
      }
    }
  }

  lemma {:induction false} CleanWeighs(lines: seq<string>)
    ensures Weight(Clean(lines)) <= Weight(lines)
  {
    if lines != [] {
      CleanWeighs(lines[1..]);
      if Trim(lines[0]) != "" {
        var l := Collapse(Trim(lines[0]));
        TrimFacts(lines[0]);
        FieldsWeigh(Trim(lines[0]));
        JoinLength(Fields(Trim(lines[0])), " ");
        assert ([l] + Clean(lines[1..]))[1..] == Clean(lines[1..]);
      } else {
        assert [] + Clean(lines[1..]) == Clean(lines[1..]);
      }
    }
  }

  /** Normalizing never lengthens a text. */
  lemma NormalizeShrinks(s: string)
    ensures |Normalize(s)| <= |s|
  {
    TrimFacts(Join(CleanLines(s), "\n"));
    JoinLength(CleanLines(s), "\n");
    CleanWeighs(Lines(s));
    LinesWeigh(s);
  }

  // ----- Concatenation

  /** The first character of a text extends its first line or ends an empty one. */
  function Prefixed(c: char, lines: seq<string>): seq<string>
    requires lines != []
  {
    if c == '\n' then [""] + lines else [[c] + lines[0]] + lines[1..]
  }

  lemma PrefixedConcat(c: char, a: seq<string>, b: seq<string>)
    requires a != []
    ensures Prefixed(c, a + b) == Prefixed(c, a) + b
  {
  }

  lemma {:induction false} LinesConcat(a: string, b: string)
    ensures Lines(a + ("\n" + b)) == Lines(a) + Lines(b)
  {
    if a == "" {
      assert a + ("\n" + b) == "\n" + b;
      assert ("\n" + b)[1..] == b;
    } else {
      LinesConcat(a[1..], b);
      var all := a + ("\n" + b);
      assert all[1..] == a[1..] + ("\n" + b);
      assert Lines(all) == Prefixed(a[0], Lines(all[1..]));
      PrefixedConcat(a[0], Lines(a[1..]), Lines(b));
    }
  }

  lemma Regroup<T>(a: seq<T>, b: seq<T>, c: seq<T>)
    ensures a + b + c == a + (b + c)
  {
  }

  lemma BlankLine()
    ensures CleanLines("") == []
  {
    assert Trim("") == "";
    assert Clean([""]) == CleanLine("") + Clean([]);
  }

  lemma CleanCons(line: string, rest: seq<string>)
    ensures Clean([line] + rest) == CleanLine(line) + Clean(rest)
  {
    assert ([line] + rest)[1..] == rest;
  }

  lemma {:induction false} CleanConcat(a: seq<string>, b: seq<string>)
    ensures Clean(a + b) == Clean(a) + Clean(b)
  {
    if a == [] {
      assert a + b == b;
    } else {
      CleanConcat(a[1..], b);
      assert a + b == [a[0]] + (a[1..] + b);
      CleanCons(a[0], a[1..] + b);
      Regroup(CleanLine(a[0]), Clean(a[1..]), Clean(b));
    }
  }

  lemma BrokenLines(a: string, b: string)
    ensures CleanLines(a + ("\n" + b)) == CleanLines(a) + CleanLines(b)
  {
    LinesConcat(a, b);
    CleanConcat(Lines(a), Lines(b));
  }

  /** A blank line between two texts vanishes; their lines follow each other. */
  lemma CleanLinesConcat(a: string, b: string)
    ensures CleanLines(a + "\n\n" + b) == CleanLines(a) + CleanLines(b)
  {
    var gap := "" + ("\n" + b);
    assert a + "\n\n" + b == a + ("\n" + gap);
    BrokenLines(a, gap);
    BrokenLines("", b);
    BlankLine();
    assert [] + CleanLines(b) == CleanLines(b);
  }

  // ----- Clean lines are trimmed and not empty

  lemma {:induction false} JoinTrimmed(parts: seq<string>, sep: string)
    requires parts != [] && forall i :: 0 <= i < |parts| ==> parts[i] != "" && IsTrimmed(parts[i])
    ensures Join(parts, sep) != "" && IsTrimmed(Join(parts, sep))
  {
    if |parts| > 1 {
      JoinTrimmed(parts[1..], sep);
    }
  }

  lemma {:induction false} FieldsOfText(s: string)
    requires exists i :: 0 <= i < |s| && !IsSpace(s[i])
    ensures Fields(s) != []
    decreases |s|
  {
    if IsSpace(s[0]) {
      var i :| 0 <= i < |s| && !IsSpace(s[i]);
      assert s[1..][i - 1] == s[i];
      FieldsOfText(s[1..]);
    }
  }

  lemma CollapseFacts(s: string)
    requires Trim(s) != ""
    ensures Collapse(Trim(s)) != "" && IsTrimmed(Collapse(Trim(s)))
  {
    TrimFacts(s);
    FieldsOfText(Trim(s));
    JoinTrimmed(Fields(Trim(s)), " ");
  }

  lemma {:induction false} CleanFacts(lines: seq<string>)
    ensures forall i :: 0 <= i < |Clean(lines)| ==> Clean(lines)[i] != "" && IsTrimmed(Clean(lines)[i])
  {
    if lines != [] {
      CleanFacts(lines[1..]);
      if Trim(lines[0]) != "" {
        CollapseFacts(lines[0]);
      }
    }
  }

  /** The final trim of a normalized text has nothing to do. */
  lemma {:induction false} NormalizeIsJoin(s: string)
    ensures Normalize(s) == Join(CleanLines(s), "\n")
  {
    CleanFacts(Lines(s));
    if CleanLines(s) != [] {
      JoinTrimmed(CleanLines(s), "\n");
    }
    TrimFacts(Join(CleanLines(s), "\n"));
  }

  lemma {:induction false} SomeLineHasText(s: string)
    requires exists i :: 0 <= i < |s| && !IsSpace(s[i])
    ensures CleanLines(s) != []
  {
    var l := LineWithText(s);
    CleanKeepsLine(Lines(s), l);
  }

  lemma {:induction false} LineWithText(s: string) returns (l: nat)
    requires exists i :: 0 <= i < |s| && !IsSpace(s[i])
    ensures l < |Lines(s)| && Trim(Lines(s)[l]) != ""
  {
    var rest := Lines(s[1..]);
    if !IsSpace(s[0]) {
      l := 0;
      assert Lines(s)[0][0] == s[0];
      TrimFacts(Lines(s)[0]);
    } else {
      var i :| 0 <= i < |s| && !IsSpace(s[i]);
      assert s[1..][i - 1] == s[i];
      l := LineWithText(s[1..]);
      TrimFacts(rest[l]);
      if s[0] == '\n' {
        l := l + 1;
        assert Lines(s)[l] == rest[l - 1];
      } else {
        assert l > 0 ==> Lines(s)[l] == rest[l];
        if l == 0 {
          var k :| 0 <= k < |rest[0]| && !IsSpace(rest[0][k]);
          assert Lines(s)[0][k + 1] == rest[0][k];
          TrimFacts(Lines(s)[0]);
        }
      }
    }
  }

  lemma {:induction false} CleanKeepsLine(lines: seq<string>, l: nat)
    requires l < |lines| && Trim(lines[l]) != ""
    ensures Clean(lines) != []
  {
    if l > 0 {
      CleanKeepsLine(lines[1..], l - 1);
    }
  }

  // ----- Whole lines inside a joined text

  ghost predicate Contains(text: string, part: string) {
    exists before, after :: text == before + part + after
  }

  lemma ContainsAt(before: string, part: string, after: string)
    ensures Contains(before + part + after, part)
  {
  }

  lemma {:induction false} JoinConcat(a: seq<string>, b: seq<string>, sep: string)
    requires a != [] && b != []
    ensures Join(a + b, sep) == Join(a, sep) + sep + Join(b, sep)
  {
    if |a| == 1 {
      assert (a + b)[1..] == b;
    } else {
      assert (a + b)[1..] == a[1..] + b;
      JoinConcat(a[1..], b, sep);
      assert a[0] + sep + (Join(a[1..], sep) + sep + Join(b, sep))
          == a[0] + sep + Join(a[1..], sep) + sep + Join(b, sep);
    }
  }

  /** Joined lines contain the join of any run of them. */
  lemma JoinContains(a: seq<string>, b: seq<string>, c: seq<string>, sep: string)
    ensures Contains(Join(a + b + c, sep), Join(b, sep))
  {
    var part := Join(b, sep);
    if b == [] {
      assert Join(a + b + c, sep) == "" + part + Join(a + b + c, sep);
      ContainsAt("", part, Join(a + b + c, sep));
    } else {
      var before := if a == [] then "" else Join(a, sep) + sep;
      var after := if c == [] then "" else sep + Join(c, sep);
      if c == [] {
        assert a + b + c == a + b;
      } else {
        JoinConcat(a + b, c, sep);
      }
      if a == [] {
        assert a + b == b;
      } else {
        JoinConcat(a, b, sep);
      }
      assert Join(a + b + c, sep) == before + part + after;
      ContainsAt(before, part, after);
    }
  }
}
