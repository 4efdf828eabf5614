/** Taking the comments out of a shader source without moving any line. */
module GlslComments {

  predicate LineComment(s: string, i: nat) {
    i + 1 < |s| && s[i] == '/' && s[i + 1] == '/'
  }

  predicate BlockComment(s: string, i: nat) {
    i + 1 < |s| && s[i] == '/' && s[i + 1] == '*'
  }

  predicate BlockEnd(s: string, i: nat) {
    i + 1 < |s| && s[i] == '*' && s[i + 1] == '/'
  }

  function Newlines(s: string): nat {
    if s == "" then 0 else Newlines(s[..|s| - 1]) + (if s[|s| - 1] == '\n' then 1 else 0)
  }

  lemma {:induction false} NewlinesConcat(s: string, t: string)
    ensures Newlines(s + t) == Newlines(s) + Newlines(t)
    decreases |t|
  {
    if t == "" {
      assert s + t == s;
    } else {
      NewlinesConcat(s, t[..|t| - 1]);
      assert (s + t)[..|s + t| - 1] == s + t[..|t| - 1];
    }
  }

  lemma {:induction false} NewlinesNext(s: string, i: nat)
    requires i < |s|
    ensures Newlines(s[..i + 1]) == Newlines(s[..i]) + (if s[i] == '\n' then 1 else 0)
  {
    assert s[..i + 1][..i] == s[..i];
  }

  /** No two characters next to each other that begin a comment. */
  predicate Clean(s: string) {
    forall i :: 0 <= i < |s| ==> !LineComment(s, i) && !BlockComment(s, i)
  }

  predicate EndsInSlash(s: string) {
    s != "" && s[|s| - 1] == '/'
  }

  lemma {:induction false} CleanConcat(s: string, t: string)
    requires Clean(s) && Clean(t) && (EndsInSlash(s) && t != "" ==> t[0] != '/' && t[0] != '*')
    ensures Clean(s + t)
  {
    forall i | 0 <= i < |s + t| ensures !LineComment(s + t, i) && !BlockComment(s + t, i) {
      if i + 1 < |s| {
        assert !LineComment(s, i) && !BlockComment(s, i);
      } else if i >= |s| {
        assert !LineComment(t, i - |s|) && !BlockComment(t, i - |s|);
      }
    }
  }

  /** Where the line that is read at `i` ends. */
  function LineEnd(s: string, i: nat): (j: nat)
    requires i <= |s|
    ensures i <= j <= |s|
    decreases |s| - i
  {
    if i == |s| || s[i] == '\n' then i else LineEnd(s, i + 1)
  }

  /** Where the block comment whose inside begins at `i` is closed, or the end. */
  function BlockClose(s: string, i: nat): (j: nat)
    requires i <= |s|
    ensures i <= j <= |s|
    decreases |s| - i
  {
    if i == |s| || BlockEnd(s, i) then i else BlockClose(s, i + 1)
  }

  function Breaks(n: nat): string {
    seq(n, _ => '\n')
  }

  lemma {:induction false} NewlinesOfBreaks(n: nat)
    ensures Newlines(Breaks(n)) == n
  {
    if n > 0 {
      NewlinesOfBreaks(n - 1);
      assert Breaks(n)[..n - 1] == Breaks(n - 1);
    }
  }

  /** The source from `i` on: line comments gone, a space and its newlines for a block comment. */
  function Stripped(s: string, i: nat): string
    decreases |s| - i
  {
    if i >= |s| then ""
    else if LineComment(s, i) then Stripped(s, LineEnd(s, i + 1))
    else if BlockComment(s, i) then
      var j := BlockClose(s, i + 2);
      " " + Breaks(Newlines(s[i + 2..j])) + Stripped(s, j + 2)
    else [s[i]] + Stripped(s, i + 1)
  }

  /** The newlines of a block comment, and where it is closed. */
  method SkipBlock(src: string, from: nat) returns (i: nat, nl: string)
    requires from <= |src|
    ensures i == BlockClose(src, from) && nl == Breaks(Newlines(src[from..i]))
    ensures i == |src| || BlockEnd(src, i)
  {
    i, nl := from, "";
    while i < |src| && !BlockEnd(src, i)
      invariant from <= i <= |src| && BlockClose(src, i) == BlockClose(src, from)
      invariant nl == Breaks(Newlines(src[from..i]))
    {
      assert src[from..i + 1][..i - from] == src[from..i];
      if src[i] == '\n' { nl := nl + "\n"; }
      i := i + 1;
    }
  }

  method SkipLine(src: string, from: nat) returns (i: nat)
    requires from <= |src|
    ensures i == LineEnd(src, from)
  {
    i := from;
    while i < |src| && src[i] != '\n'
      invariant from <= i <= |src| && LineEnd(src, i) == LineEnd(src, from)
    {
      i := i + 1;
    }
  }

  lemma {:induction false} NoBreakBeforeEnd(src: string, from: nat)
    requires from <= |src|
    ensures Newlines(src[..LineEnd(src, from)]) == Newlines(src[..from])
    ensures LineEnd(src, from) == |src| || src[LineEnd(src, from)] == '\n'
    decreases |src| - from
  {
    if from < |src| && src[from] != '\n' {
      NewlinesNext(src, from);
      NoBreakBeforeEnd(src, from + 1);
    }
  }

  /** What a block comment leaves has the newlines of the comment. */
  lemma {:induction false} BlockBreaks(src: string, i: nat, j: nat)
    requires BlockComment(src, i) && j == BlockClose(src, i + 2) && (j == |src| || BlockEnd(src, j))
    ensures var next := if j + 2 <= |src| then j + 2 else |src|;
      Newlines(src[..next]) == Newlines(src[..i]) + Newlines(" " + Breaks(Newlines(src[i + 2..j])))
  {
    NewlinesNext(src, i);
    NewlinesNext(src, i + 1);
    NewlinesConcat(src[..i + 2], src[i + 2..j]);
    assert src[..i + 2] + src[i + 2..j] == src[..j];
    if j < |src| {
      NewlinesNext(src, j);
      NewlinesNext(src, j + 1);
    }
    NewlinesConcat(" ", Breaks(Newlines(src[i + 2..j])));
    NewlinesOfBreaks(Newlines(src[i + 2..j]));
    NewlinesNext(" ", 0);
    assert " "[..1] == " ";
  }

  lemma {:induction false} NewlinesOfOne(c: char)
    ensures Newlines([c]) == if c == '\n' then 1 else 0
  {
    assert [c][..0] == "";
  }

  /** No line moves: the newlines that are left are those of the source. */
  lemma {:induction false} LinesStay(s: string, i: nat)
    requires i <= |s|
    ensures Newlines(s[..i]) + Newlines(Stripped(s, i)) == Newlines(s)
    decreases |s| - i
  {
    if i == |s| {
      assert s[..i] == s;
    } else if LineComment(s, i) {
      NewlinesNext(s, i);
      NoBreakBeforeEnd(s, i + 1);
      LinesStay(s, LineEnd(s, i + 1));
    } else if BlockComment(s, i) {
      BlockLinesStay(s, i);
    } else {
      NewlinesNext(s, i);
      NewlinesOfOne(s[i]);
      NewlinesConcat([s[i]], Stripped(s, i + 1));
      LinesStay(s, i + 1);
    }
  }

  lemma {:induction false} BlockIsStripped(s: string, i: nat, j: nat, inside: string, rest: string)
    requires BlockComment(s, i) && j == BlockClose(s, i + 2) && inside == s[i + 2..j] && rest == Stripped(s, j + 2)
    ensures Stripped(s, i) == " " + Breaks(Newlines(inside)) + rest
  {
    assert !LineComment(s, i);
  }

  lemma {:induction false} BlockLinesStay(s: string, i: nat)
    requires BlockComment(s, i)
    ensures Newlines(s[..i]) + Newlines(Stripped(s, i)) == Newlines(s)
    decreases |s| - i, 0
  {
    var j := BlockClose(s, i + 2);
    var left, rest := " " + Breaks(Newlines(s[i + 2..j])), Stripped(s, j + 2);
    CloseIsEnd(s, i + 2);
    BlockBreaks(s, i, j);
    BlockIsStripped(s, i, j, s[i + 2..j], rest);
    NewlinesConcat(left, rest);
    if j + 2 <= |s| { LinesStay(s, j + 2); } else { assert s[..|s|] == s; }
  }

  lemma {:induction false} CloseIsEnd(s: string, i: nat)
    requires i <= |s|
    ensures BlockClose(s, i) == |s| || BlockEnd(s, BlockClose(s, i))
    decreases |s| - i
  {
    if i < |s| && !BlockEnd(s, i) { CloseIsEnd(s, i + 1); }
  }

  /** Nothing that is left begins a comment. */
  lemma {:induction false} NoneLeft(s: string, i: nat)
    ensures Clean(Stripped(s, i))
    decreases |s| - i
  {
    if i >= |s| {
    } else if LineComment(s, i) {
      NoneLeft(s, LineEnd(s, i + 1));
    } else if BlockComment(s, i) {
      var j := BlockClose(s, i + 2);
      NoneLeft(s, j + 2);
      CleanConcat(" " + Breaks(Newlines(s[i + 2..j])), Stripped(s, j + 2));
    } else {
      NoneLeft(s, i + 1);
      CleanConcat([s[i]], Stripped(s, i + 1));
    }
  }

  lemma {:induction false} CleanUnchanged(s: string, i: nat)
    requires Clean(s) && i <= |s|
    ensures Stripped(s, i) == s[i..]
    decreases |s| - i
  {
    if i < |s| { CleanUnchanged(s, i + 1); }
  }

  /** Stripping again changes nothing. */
  lemma {:induction false} StrippedTwice(s: string)
    ensures Stripped(Stripped(s, 0), 0) == Stripped(s, 0)
  {
    NoneLeft(s, 0);
    CleanUnchanged(Stripped(s, 0), 0);
  }

  // ----- what goes and what stays

  /** `all` goes on with `s` from `at` on. */
  ghost predicate GoesOn(all: string, at: nat, s: string) {
    at + |s| == |all| && forall k :: 0 <= k < |s| ==> all[at + k] == s[k]
  }

  lemma {:induction false} SameStarts(all: string, at: nat, s: string, i: nat)
    requires GoesOn(all, at, s)
    ensures LineComment(all, at + i) == LineComment(s, i) && BlockComment(all, at + i) == BlockComment(s, i)
    ensures BlockEnd(all, at + i) == BlockEnd(s, i)
  {
    if i + 1 < |s| { assert all[at + i] == s[i] && all[at + (i + 1)] == s[i + 1]; }
  }

  lemma {:induction false} SameLineEnd(all: string, at: nat, s: string, i: nat)
    requires GoesOn(all, at, s) && i <= |s|
    ensures LineEnd(all, at + i) == at + LineEnd(s, i)
    decreases |s| - i
  {
    if i < |s| && s[i] != '\n' { SameLineEnd(all, at, s, i + 1); }
  }

  lemma {:induction false} SameClose(all: string, at: nat, s: string, i: nat)
    requires GoesOn(all, at, s) && i <= |s|
    ensures BlockClose(all, at + i) == at + BlockClose(s, i)
    decreases |s| - i
  {
    SameStarts(all, at, s, i);
    if i < |s| && !BlockEnd(s, i) { SameClose(all, at, s, i + 1); }
  }

  lemma {:induction false} SameInside(all: string, at: nat, s: string, a: nat, b: nat)
    requires GoesOn(all, at, s) && a <= b <= |s|
    ensures all[at + a..at + b] == s[a..b]
  {
  }

  lemma {:induction false} SameBlock(all: string, at: nat, s: string, i: nat, j: nat)
    requires GoesOn(all, at, s) && BlockComment(s, i) && j == BlockClose(s, i + 2)
    requires Stripped(all, at + j + 2) == Stripped(s, j + 2)
    ensures Stripped(all, at + i) == Stripped(s, i)
  {
    SameStarts(all, at, s, i);
    SameClose(all, at, s, i + 2);
    SameInside(all, at, s, i + 2, j);
    BlockIsStripped(s, i, j, s[i + 2..j], Stripped(s, j + 2));
    BlockIsStripped(all, at + i, at + j, s[i + 2..j], Stripped(s, j + 2));
  }

  lemma {:induction false} SameLine(all: string, at: nat, s: string, i: nat, j: nat)
    requires GoesOn(all, at, s) && LineComment(s, i) && j == LineEnd(s, i + 1)
    requires Stripped(all, at + j) == Stripped(s, j)
    ensures Stripped(all, at + i) == Stripped(s, i)
  {
    SameStarts(all, at, s, i);
    SameLineEnd(all, at, s, i + 1);
  }

  lemma {:induction false} SameCharacter(all: string, at: nat, s: string, i: nat)
    requires GoesOn(all, at, s) && i < |s| && !LineComment(s, i) && !BlockComment(s, i)
    requires Stripped(all, at + i + 1) == Stripped(s, i + 1)
    ensures Stripped(all, at + i) == Stripped(s, i)
  {
    SameStarts(all, at, s, i);
  }

  /** What is made of the rest does not depend on what came before it. */
  lemma {:induction false} SameStripped(all: string, at: nat, s: string, i: nat)
    requires GoesOn(all, at, s)
    ensures Stripped(all, at + i) == Stripped(s, i)
    decreases |s| - i
  {
    if i >= |s| {
    } else if LineComment(s, i) {
      var j := LineEnd(s, i + 1);
      SameStripped(all, at, s, j);
      SameLine(all, at, s, i, j);
    } else if BlockComment(s, i) {
      var j := BlockClose(s, i + 2);
      SameStripped(all, at, s, j + 2);
      SameBlock(all, at, s, i, j);
    } else {
      SameStripped(all, at, s, i + 1);
      SameCharacter(all, at, s, i);
    }
  }

  /** A character that does not begin a comment stays. */
  lemma {:induction false} OthersStay(c: char, rest: string)
    requires !(c == '/' && rest != "" && (rest[0] == '/' || rest[0] == '*'))
    ensures Stripped([c] + rest, 0) == [c] + Stripped(rest, 0)
  {
    SameStripped([c] + rest, 1, rest, 0);
  }

  lemma {:induction false} LineEndIs(s: string, i: nat, j: nat)
    requires i <= j <= |s| && (j < |s| ==> s[j] == '\n') && forall k :: i <= k < j ==> s[k] != '\n'
    ensures LineEnd(s, i) == j
    decreases j - i
  {
    if i < j { LineEndIs(s, i + 1, j); }
  }

  /** A line comment goes up to the end of its line, which stays. */
  lemma {:induction false} LineCommentGoes(text: string, rest: string)
    requires '\n' !in text && (rest != "" ==> rest[0] == '\n')
    ensures Stripped("//" + text + rest, 0) == Stripped(rest, 0)
  {
    var p := "//" + text;
    LineEndIs(p + rest, 1, |p|);
    SameStripped(p + rest, |p|, rest, 0);
  }

  /** No block comment is closed in here. */
  predicate StaysOpen(inside: string) {
    forall k :: 0 <= k < |inside| - 1 ==> !(inside[k] == '*' && inside[k + 1] == '/')
  }

  lemma {:induction false} BlockCloseIs(s: string, i: nat, j: nat)
    requires i <= j <= |s| && (j < |s| ==> BlockEnd(s, j)) && forall k :: i <= k < j ==> !BlockEnd(s, k)
    ensures BlockClose(s, i) == j
    decreases j - i
  {
    if i < j { BlockCloseIs(s, i + 1, j); }
  }

  lemma {:induction false} NotClosed(inside: string, s: string, k: nat)
    requires StaysOpen(inside) && 2 <= k < 2 + |inside| <= |s| && s[2..2 + |inside|] == inside
    requires 2 + |inside| < |s| ==> s[2 + |inside|] != '/'
    ensures !BlockEnd(s, k)
  {
    assert s[k] == inside[k - 2];
    if k + 1 < 2 + |inside| { assert s[k + 1] == inside[k - 1]; }
  }

  lemma {:induction false} ClosedThere(inside: string, rest: string, s: string)
    requires StaysOpen(inside) && s == ['/', '*'] + inside + ['*', '/'] + rest
    ensures BlockComment(s, 0) && BlockClose(s, 2) == 2 + |inside| && s[2..2 + |inside|] == inside
    ensures GoesOn(s, 4 + |inside|, rest)
  {
    var n := |inside|;
    assert s[2..2 + n] == inside && s[2 + n] == '*' && s[3 + n] == '/';
    forall k | 2 <= k < 2 + n ensures !BlockEnd(s, k) { NotClosed(inside, s, k); }
    BlockCloseIs(s, 2, 2 + n);
  }

  /** A block comment goes up to where it is first closed, and leaves a space and its newlines. */
  lemma {:induction false} BlockCommentGoes(inside: string, rest: string, s: string)
    requires StaysOpen(inside) && s == ['/', '*'] + inside + ['*', '/'] + rest
    ensures Stripped(s, 0) == " " + Breaks(Newlines(inside)) + Stripped(rest, 0)
  {
    ClosedThere(inside, rest, s);
    SameStripped(s, 4 + |inside|, rest, 0);
    BlockIsStripped(s, 0, 2 + |inside|, inside, Stripped(rest, 0));
  }

  /** One that is never closed takes all the rest. */
  lemma {:induction false} OpenCommentGoes(inside: string, s: string)
    requires StaysOpen(inside) && s == ['/', '*'] + inside
    ensures Stripped(s, 0) == " " + Breaks(Newlines(inside))
  {
    assert s[2..2 + |inside|] == inside;
    forall k | 2 <= k < |s| ensures !BlockEnd(s, k) { NotClosed(inside, s, k); }
    BlockCloseIs(s, 2, |s|);
    BlockIsStripped(s, 0, |s|, inside, "");
  }

  lemma {:induction false} Appended(out: string, piece: string, rest: string, all: string)
    requires all == piece + rest
    ensures out + piece + rest == out + all
  {
  }

  method StripComments(src: string) returns (out: string)
    ensures out == Stripped(src, 0)
  {
    out := "";
    var i := 0;
    while i < |src|
      invariant 0 <= i && out + Stripped(src, i) == Stripped(src, 0)
    {
      if LineComment(src, i) {
        i := SkipLine(src, i + 1);
      } else if BlockComment(src, i) {
        var j, nl := SkipBlock(src, i + 2);
        Appended(out, " " + nl, Stripped(src, j + 2), Stripped(src, i));
        out, i := out + (" " + nl), j + 2;
      } else {
        Appended(out, [src[i]], Stripped(src, i + 1), Stripped(src, i));
        out, i := out + [src[i]], i + 1;
      }
    }
    assert out + "" == out;
  }
}
