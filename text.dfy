/** The string operations the renderer relies on: `joined(separator:)`, NSString's
    `padding(toLength:withPad:startingAt:)` with a space pad, and the ordering Swift's `<`
    gives two ASCII strings. `Split` is not used by the renderer: it is the inverse of the
    newline join, by which the lemmas state the line structure of a rendered section.
    Strings are sequences of characters. */
module Text {

  /** A string of `n` spaces. */
  function Spaces(n: nat): (r: string)
    ensures |r| == n
    ensures forall i :: 0 <= i < n ==> r[i] == ' '
  {
    if n == 0 then "" else Spaces(n - 1) + " "
  }

  /** `s.padding(toLength: w, withPad: " ", startingAt: 0)`: exactly `w` characters,
      `s` cut off at `w` when it is longer, filled with spaces when it is shorter. */
  function PadTo(s: string, w: nat): (r: string)
    ensures |r| == w
    ensures w <= |s| ==> r == s[..w]
    ensures |s| <= w ==> r[..|s|] == s && forall i :: |s| <= i < w ==> r[i] == ' '
  {
    if w <= |s| then s[..w] else s + Spaces(w - |s|)
  }

  /** Padding adds only spaces: a character other than a space that `s` lacks, the padded
      string lacks too. */
  lemma PadToKeepsOut(s: string, w: nat, c: char)
    requires c != ' ' && c !in s
    ensures c !in PadTo(s, w)
  {
    var r := PadTo(s, w);
    forall k | 0 <= k < |r|
      ensures r[k] != c
    {
      if w <= |s| {
        assert r[k] == s[k];
      } else if k < |s| {
        assert r[k] == r[..|s|][k];
      }
    }
  }

  /** A line made of a lead, `s` padded to `w`, a run of blanks and a rest: `s` is kept
      whole after the lead, blanks follow up to the end of the run, then the rest. */
  lemma ColumnLine(lead: string, s: string, w: nat, gap: string, rest: string)
    requires |s| <= w
    requires forall i :: 0 <= i < |gap| ==> gap[i] == ' '
    ensures var line := lead + PadTo(s, w) + gap + rest;
      line[..|lead| + |s|] == lead + s &&
      (forall i :: |lead| + |s| <= i < |lead| + w + |gap| ==> line[i] == ' ') &&
      line[|lead| + w + |gap|..] == rest
  {
    var padded := PadTo(s, w);
    var line := lead + padded + gap + rest;
    assert line[..|lead| + |s|] == lead + padded[..|s|];
    forall i | |lead| + |s| <= i < |lead| + w + |gap|
      ensures line[i] == ' '
    {
      if i < |lead| + w {
        assert line[i] == padded[i - |lead|];
      } else {
        assert line[i] == gap[i - |lead| - w];
      }
    }
    assert line[|lead| + w + |gap|..] == rest;
  }

  /** Concatenation regrouped: the forms the proofs about rendered lines need. */
  lemma Regroup(a: string, b: string, c: string, d: string, e: string)
    ensures a + (b + c + d) == a + b + c + d
    ensures a + (b + c) + d == a + b + c + d
    ensures a + (b + c + d) + e == a + b + c + d + e
    ensures a + (b + (c + d + e)) == a + b + c + d + e
  {
  }

  /** `parts.joined(separator: sep)`. */
  function Join(parts: seq<string>, sep: string): (r: string)
    ensures parts == [] ==> r == ""
    ensures |parts| == 1 ==> r == parts[0]
  {
    if parts == [] then ""
    else if |parts| == 1 then parts[0]
    else parts[0] + sep + Join(parts[1..], sep)
  }

  /** Joining two non-empty runs of parts puts one separator between their joins. */
  lemma {:induction false} JoinAppend(a: seq<string>, b: seq<string>, sep: string)
    requires a != [] && b != []
    ensures Join(a + b, sep) == Join(a, sep) + sep + Join(b, sep)
  {
    if |a| == 1 {
      assert (a + b)[1..] == b;
    } else {
      assert (a + b)[1..] == a[1..] + b;
      JoinAppend(a[1..], b, sep);
    }
  }

  /** A header line, some lines and a blank line, joined with newlines. */
  lemma JoinBlock(header: string, lines: seq<string>)
    requires lines != []
    ensures Join([header] + lines + ["", ""], "\n") == header + "\n" + Join(lines, "\n") + "\n\n"
  {
    JoinAppend([header] + lines, ["", ""], "\n");
    JoinAppend([header], lines, "\n");
    assert Join(["", ""], "\n") == "\n";
  }

  /** The pieces of `s` between the occurrences of `c`: the inverse of joining on `[c]`,
      used only to state what a rendered text's lines are. */
  function Split(s: string, c: char): (r: seq<string>)
    ensures |r| >= 1
    ensures forall i :: 0 <= i < |r| ==> c !in r[i]
  {
    if s == [] then [""]
    else
      var rest := Split(s[1..], c);
      if s[0] == c then [""] + rest
      else [[s[0]] + rest[0]] + rest[1..]
  }

  /** Splitting a string free of `c` gives it back whole, and splitting `p + [c] + t`
      gives `p` followed by the pieces of `t`. */
  lemma {:induction false} SplitPrefix(p: string, t: string, c: char)
    requires c !in p
    ensures Split(p, c) == [p]
    ensures Split(p + [c] + t, c) == [p] + Split(t, c)
  {
    if p != [] {
      SplitPrefix(p[1..], t, c);
      assert (p + [c] + t)[1..] == p[1..] + [c] + t;
      assert [p[0]] + p[1..] == p;
    } else {
      assert (p + [c] + t)[1..] == t;
    }
  }

  /** Lines joined with a character that none of them contains, then that character and
      a tail, split back into exactly those lines followed by the pieces of the tail. */
  lemma {:induction false} SplitJoin(parts: seq<string>, t: string, c: char)
    requires parts != []
    requires forall i :: 0 <= i < |parts| ==> c !in parts[i]
    ensures Split(Join(parts, [c]) + [c] + t, c) == parts + Split(t, c)
  {
    if |parts| == 1 {
      SplitPrefix(parts[0], t, c);
    } else {
      var head, tail := parts[0], parts[1..];
      var rest := Join(tail, [c]);
      forall i | 0 <= i < |tail|
        ensures c !in tail[i]
      {
        assert tail[i] == parts[i + 1];
      }
      calc {
        Split(Join(parts, [c]) + [c] + t, c);
        { assert Join(parts, [c]) + [c] + t == head + [c] + (rest + [c] + t); }
        Split(head + [c] + (rest + [c] + t), c);
        { SplitPrefix(head, rest + [c] + t, c); }
        [head] + Split(rest + [c] + t, c);
        { SplitJoin(tail, t, c); }
        [head] + (tail + Split(t, c));
        { assert parts == [head] + tail; }
        parts + Split(t, c);
      }
    }
  }

  /** A header, lines and a blank line, none of them holding a newline, split back into
      exactly those lines. */
  lemma BlockLines(header: string, lines: seq<string>)
    requires lines != [] && '\n' !in header
    requires forall i :: 0 <= i < |lines| ==> '\n' !in lines[i]
    ensures Split(header + "\n" + Join(lines, "\n") + "\n\n", '\n') == [header] + lines + ["", ""]
  {
    var c := '\n';
    var body := Join(lines, [c]);
    assert header + "\n" + Join(lines, "\n") + "\n\n" == header + [c] + (body + [c] + [c]);
    SplitPrefix(header, body + [c] + [c], c);
    SplitJoin(lines, [c], c);
    SplitPrefix("", "", c);
    assert [] + [c] + [] == [c];
  }

  /** Lexicographic order on character codes, which is what Swift's `<` on two ASCII
      strings computes. */
  predicate Less(a: string, b: string)
  {
    if a == [] then b != []
    else b != [] && (a[0] < b[0] || (a[0] == b[0] && Less(a[1..], b[1..])))
  }

  lemma {:induction false} LessIrreflexive(a: string)
    ensures !Less(a, a)
  {
    if a != [] {
      LessIrreflexive(a[1..]);
    }
  }

  lemma {:induction false} LessAsymmetric(a: string, b: string)
    requires Less(a, b)
    ensures !Less(b, a)
  {
    if a != [] && b != [] && a[0] == b[0] {
      LessAsymmetric(a[1..], b[1..]);
    }
  }

  lemma {:induction false} LessTransitive(a: string, b: string, c: string)
    requires Less(a, b) && Less(b, c)
    ensures Less(a, c)
  {
    if a != [] && a[0] == b[0] && b[0] == c[0] {
      LessTransitive(a[1..], b[1..], c[1..]);
    }
  }

  /** Any two different strings are ordered one way or the other. */
  lemma {:induction false} LessTotal(a: string, b: string)
    ensures a == b || Less(a, b) || Less(b, a)
  {
    if a != [] && b != [] && a[0] == b[0] {
      LessTotal(a[1..], b[1..]);
      if a[1..] == b[1..] {
        assert a == [a[0]] + a[1..] && b == [b[0]] + b[1..];
      }
    }
  }

  /** "Not after" (`!(b < a)`) is transitive: it is a total preorder. */
  lemma NotLessTransitive(a: string, b: string, c: string)
    requires !Less(b, a) && !Less(c, b)
    ensures !Less(c, a)
  {
    LessTotal(a, b);
    LessTotal(b, c);
    if Less(a, b) && Less(b, c) {
      LessTransitive(a, b, c);
      LessAsymmetric(a, c);
    }
  }
}
