/** `escapeMarkdownTokens` (src/main.ts): collapse indented line breaks, then
    backslash-escape the Markdown tokens `_ * | # - >`. */
module Markdown {

  /** The characters the helper escapes. */
  const Tokens: set<char> := {'_', '*', '|', '#', '-', '>'}

  /** Drops the leading spaces of `s`. */
  function DropSpaces(s: string): (r: string)
    ensures |r| <= |s|
    ensures r == s[|s| - |r|..]
    ensures r != [] ==> r[0] != ' '
  {
    if s != [] && s[0] == ' ' then DropSpaces(s[1..]) else s
  }

  /** `s.replace(/\n\ {1,}/g, '\n ')`: every line break followed by one or more
      spaces keeps the line break and exactly one space. */
  function CollapseIndent(s: string): (r: string)
    ensures r != [] <==> s != []
    ensures r != [] ==> r[0] == s[0]
    decreases |s|
  {
    if s == [] then []
    else if s[0] == '\n' && |s| > 1 && s[1] == ' ' then "\n " + CollapseIndent(DropSpaces(s[1..]))
    else [s[0]] + CollapseIndent(s[1..])
  }

  /** `s.replace(/c/g, '\\' + c)` for every `c` in `escaped`, in one pass. */
  function Escape(s: string, escaped: set<char>): (r: string)
    ensures r != [] <==> s != []
    ensures s != [] && s[0] !in escaped ==> r[0] == s[0]
    ensures s != [] && s[0] in escaped ==> r[0] == '\\'
  {
    if s == [] then []
    else if s[0] in escaped then ['\\', s[0]] + Escape(s[1..], escaped)
    else [s[0]] + Escape(s[1..], escaped)
  }

  /** The helper exactly as the source chains it: one global replace per token. */
  function EscapeMarkdownTokens(text: string): (r: string) {
    Escape(Escape(Escape(Escape(Escape(Escape(CollapseIndent(text),
      {'_'}), {'*'}), {'|'}), {'#'}), {'-'}), {'>'})
  }

  /** Escaping one more character after a pass that escaped others is one pass over
      both, as long as the backslash itself is never escaped. */
  lemma {:induction false} EscapeTwice(s: string, first: set<char>, c: char)
    requires '\\' !in first && c != '\\' && c !in first
    ensures Escape(Escape(s, first), {c}) == Escape(s, first + {c})
  {
    if s != [] {
      EscapeTwice(s[1..], first, c);
      var rest := Escape(s[1..], first);
      if s[0] in first {
        assert Escape(s, first) == ['\\', s[0]] + rest;
        EscapeAppend(['\\', s[0]], rest, {c});
        assert Escape(['\\', s[0]], {c}) == ['\\', s[0]] by {
          assert ['\\', s[0]][1..] == [s[0]];
        }
      } else {
        assert Escape(s, first) == [s[0]] + rest;
        EscapeAppend([s[0]], rest, {c});
      }
    }
  }

  lemma {:induction false} EscapeAppend(a: string, b: string, escaped: set<char>)
    ensures Escape(a + b, escaped) == Escape(a, escaped) + Escape(b, escaped)
  {
    if a != [] {
      assert (a + b)[1..] == a[1..] + b;
      EscapeAppend(a[1..], b, escaped);
    } else {
      assert a + b == b;
    }
  }

  /** The six chained replaces escape all tokens in a single pass over the collapsed text. */
  lemma EscapeMarkdownTokensSinglePass(text: string)
    ensures EscapeMarkdownTokens(text) == Escape(CollapseIndent(text), Tokens)
  {
    var c := CollapseIndent(text);
    var t1: set<char> := {'_'};
    var t2 := t1 + {'*'};
    var t3 := t2 + {'|'};
    var t4 := t3 + {'#'};
    var t5 := t4 + {'-'};
    EscapeTwice(c, t1, '*');
    EscapeTwice(c, t2, '|');
    EscapeTwice(c, t3, '#');
    EscapeTwice(c, t4, '-');
    EscapeTwice(c, t5, '>');
    assert t5 + {'>'} == Tokens;
  }

  /** Every token character is immediately preceded by a backslash. */
  ghost predicate TokensEscaped(r: string) {
    forall i :: 0 <= i < |r| && r[i] in Tokens ==> i > 0 && r[i - 1] == '\\'
  }

  /** No line break is followed by two spaces, stated one position at a time. */
  ghost predicate IndentCollapsed(r: string) {
    |r| < 3 || (!(r[0] == '\n' && r[1] == ' ' && r[2] == ' ') && IndentCollapsed(r[1..]))
  }

  /** The same property as a statement about every position. */
  lemma {:induction false} IndentCollapsedAt(r: string, i: nat)
    requires IndentCollapsed(r) && i + 2 < |r|
    ensures !(r[i] == '\n' && r[i + 1] == ' ' && r[i + 2] == ' ')
  {
    if i > 0 {
      IndentCollapsedAt(r[1..], i - 1);
    }
  }

  lemma {:induction false} EscapeEscapesTokens(s: string)
    ensures TokensEscaped(Escape(s, Tokens))
  {
    if s != [] {
      EscapeEscapesTokens(s[1..]);
      var tail := Escape(s[1..], Tokens);
      var r := Escape(s, Tokens);
      var k := |r| - |tail|;
      assert r[k..] == tail;
      forall i | 0 <= i < |r| && r[i] in Tokens ensures i > 0 && r[i - 1] == '\\' {
        if i >= k {
          assert r[i] == tail[i - k];
        }
      }
    }
  }

  lemma {:induction false} CollapseIndentCollapses(s: string)
    ensures IndentCollapsed(CollapseIndent(s))
    decreases |s|
  {
    if s != [] {
      var r := CollapseIndent(s);
      if s[0] == '\n' && |s| > 1 && s[1] == ' ' {
        var t := DropSpaces(s[1..]);
        CollapseIndentCollapses(t);
        var tail := CollapseIndent(t);
        assert r == "\n " + tail;
        assert r[1..][1..] == tail;
      } else {
        CollapseIndentCollapses(s[1..]);
        var tail := CollapseIndent(s[1..]);
        assert r == [s[0]] + tail;
        assert r[1..] == tail;
      }
    }
  }

  /** A character of a text once the spaces after each line break are deleted, with a mark
      on each line break saying whether spaces followed it. */
  datatype Glyph = Glyph(c: char, indented: bool)

  /** The text with the spaces after each line break deleted and those line breaks marked. */
  function Skeleton(s: string): (r: seq<Glyph>)
    decreases |s|
  {
    if s == [] then []
    else if s[0] == '\n' && |s| > 1 && s[1] == ' ' then [Glyph('\n', true)] + Skeleton(DropSpaces(s[1..]))
    else [Glyph(s[0], false)] + Skeleton(s[1..])
  }

  /** Collapsing deletes nothing but spaces after line breaks, and keeps a space after a line
      break exactly where the input has one: input and output have the same skeleton. */
  lemma {:induction false} CollapseIndentKeepsSkeleton(s: string)
    ensures Skeleton(CollapseIndent(s)) == Skeleton(s)
    decreases |s|
  {
    if s != [] {
      if s[0] == '\n' && |s| > 1 && s[1] == ' ' {
        var t := DropSpaces(s[1..]);
        CollapseIndentKeepsSkeleton(t);
        SkeletonAfterIndent(CollapseIndent(t));
      } else {
        var tail := CollapseIndent(s[1..]);
        CollapseIndentKeepsSkeleton(s[1..]);
        var r := [s[0]] + tail;
        assert r[1..] == tail;
        assert !(r[0] == '\n' && |r| > 1 && r[1] == ' ');
      }
    }
  }

  /** One space before a text that starts with no space is all `DropSpaces` drops. */
  lemma DropOneSpace(tail: string)
    requires tail != [] ==> tail[0] != ' '
    ensures DropSpaces([' '] + tail) == tail
  {
  }

  /** A line break, one space and a text that starts with no space: the break is marked and
      the text follows. */
  lemma SkeletonAfterIndent(tail: string)
    requires tail != [] ==> tail[0] != ' '
    ensures Skeleton("\n " + tail) == [Glyph('\n', true)] + Skeleton(tail)
  {
    var r := "\n " + tail;
    assert r[1..] == [' '] + tail;
    DropOneSpace(tail);
  }

  /** The text starts with a line break followed by a space. */
  predicate StartsIndented(s: string) {
    |s| > 1 && s[0] == '\n' && s[1] == ' '
  }

  /** A collapsed text that starts with an indented line break: the marked break, then the
      skeleton of what follows the one space. */
  lemma SkeletonIndented(a: string)
    requires IndentCollapsed(a) && StartsIndented(a)
    ensures Skeleton(a) == [Glyph('\n', true)] + Skeleton(a[2..])
    ensures IndentCollapsed(a[2..])
  {
    var tail := a[2..];
    assert a == "\n " + tail;
    if |a| > 2 {
      assert !(a[0] == '\n' && a[1] == ' ' && a[2] == ' ');
      assert tail[0] == a[2];
    }
    assert IndentCollapsed(a[1..]);
    assert a[1..][1..] == tail;
    SkeletonAfterIndent(tail);
  }

  /** The skeleton is empty only for the empty text, and starts with the text's first
      character, marked when a space follows it after a line break. */
  lemma SkeletonHead(s: string)
    ensures Skeleton(s) == [] <==> s == []
    ensures s != [] ==> Skeleton(s)[0] == Glyph(s[0], StartsIndented(s))
  {
  }

  /** A collapsed text that does not start with an indented line break: its first
      character, unmarked, then the skeleton of the rest. */
  lemma SkeletonPlain(a: string)
    requires IndentCollapsed(a) && a != [] && !StartsIndented(a)
    ensures Skeleton(a) == [Glyph(a[0], false)] + Skeleton(a[1..])
    ensures IndentCollapsed(a[1..])
  {
  }

  /** Two texts with no line break followed by two spaces and the same skeleton are equal,
      so `CollapseIndentCollapses` and `CollapseIndentKeepsSkeleton` pin the collapse down. */
  lemma {:induction false} SkeletonDeterminesCollapsed(a: string, b: string)
    requires IndentCollapsed(a) && IndentCollapsed(b)
    requires Skeleton(a) == Skeleton(b)
    ensures a == b
    decreases |a|
  {
    SkeletonHead(a);
    SkeletonHead(b);
    if a == [] {
      assert b == [];
    } else {
      var k := Skeleton(a);
      assert b != [] && k[0] == Glyph(a[0], StartsIndented(a)) == Glyph(b[0], StartsIndented(b));
      if StartsIndented(a) {
        SkeletonIndented(a);
        SkeletonIndented(b);
        assert Skeleton(a[2..]) == k[1..] == Skeleton(b[2..]);
        SkeletonDeterminesCollapsed(a[2..], b[2..]);
        assert a[..2] == "\n " == b[..2];
        assert a == a[..2] + a[2..] && b == b[..2] + b[2..];
      } else {
        SkeletonPlain(a);
        SkeletonPlain(b);
        assert Skeleton(a[1..]) == k[1..] == Skeleton(b[1..]);
        SkeletonDeterminesCollapsed(a[1..], b[1..]);
        assert a[0] == b[0];
        assert a == [a[0]] + a[1..] && b == [b[0]] + b[1..];
      }
    }
  }

  /** The collapsed text is the only text with the input's skeleton and no line break
      followed by two spaces. */
  lemma CollapseIndentUnique(s: string, r: string)
    requires IndentCollapsed(r) && Skeleton(r) == Skeleton(s)
    ensures r == CollapseIndent(s)
  {
    CollapseIndentCollapses(s);
    CollapseIndentKeepsSkeleton(s);
    SkeletonDeterminesCollapsed(r, CollapseIndent(s));
  }

  lemma {:induction false} EscapeKeepsIndentCollapsed(s: string)
    requires IndentCollapsed(s)
    ensures IndentCollapsed(Escape(s, Tokens))
  {
    if s != [] {
      EscapeKeepsIndentCollapsed(s[1..]);
      var tail := Escape(s[1..], Tokens);
      var r := Escape(s, Tokens);
      if s[0] in Tokens {
        assert r == ['\\', s[0]] + tail;
        assert r[1..][1..] == tail;
      } else {
        assert r == [s[0]] + tail;
        assert r[1..] == tail;
        if s[0] == '\n' && |s| > 2 && s[1] == ' ' {
          // the third character of s is no space, so neither is the third of r
          var tail2 := Escape(s[2..], Tokens);
          assert s[1..][1..] == s[2..];
          assert tail == [' '] + tail2;
          assert s[2] != ' ';
          assert r[2] == tail2[0];
        }
      }
    }
  }

  /** The output has every token escaped and no line break followed by more than one space. */
  lemma EscapeMarkdownTokensOutput(text: string)
    ensures TokensEscaped(EscapeMarkdownTokens(text))
    ensures IndentCollapsed(EscapeMarkdownTokens(text))
  {
    EscapeMarkdownTokensSinglePass(text);
    EscapeEscapesTokens(CollapseIndent(text));
    CollapseIndentCollapses(text);
    EscapeKeepsIndentCollapsed(CollapseIndent(text));
  }

  /** Deletes every backslash that stands immediately before a token character. */
  function Unescape(r: string): (s: string) {
    if r == [] then []
    else if |r| >= 2 && r[0] == '\\' && r[1] in Tokens then [r[1]] + Unescape(r[2..])
    else [r[0]] + Unescape(r[1..])
  }

  lemma {:induction false} UnescapeEscape(s: string)
    ensures Unescape(Escape(s, Tokens)) == s
  {
    if s != [] {
      UnescapeEscape(s[1..]);
      var tail := Escape(s[1..], Tokens);
      if s[0] in Tokens {
        assert Escape(s, Tokens)[2..] == tail;
      } else {
        assert Escape(s, Tokens)[1..] == tail;
        assert s == [s[0]] + s[1..];
      }
    }
  }

  /** True when some line break is followed by a space. */
  predicate HasIndentedLine(s: string) {
    exists i :: 0 <= i < |s| - 1 && s[i] == '\n' && s[i + 1] == ' '
  }

  lemma {:induction false} CollapseIndentNoop(s: string)
    requires !HasIndentedLine(s)
    ensures CollapseIndent(s) == s
    decreases |s|
  {
    if s != [] {
      forall i | 0 <= i < |s[1..]| - 1
        ensures !(s[1..][i] == '\n' && s[1..][i + 1] == ' ')
      {
        assert s[1..][i] == s[i + 1] && s[1..][i + 1] == s[i + 2];
      }
      CollapseIndentNoop(s[1..]);
      assert s == [s[0]] + s[1..];
    }
  }

  /** Without indented lines, removing the inserted backslashes gives back the input. */
  lemma EscapeMarkdownTokensRoundTrip(text: string)
    requires !HasIndentedLine(text)
    ensures Unescape(EscapeMarkdownTokens(text)) == text
  {
    EscapeMarkdownTokensSinglePass(text);
    CollapseIndentNoop(text);
    UnescapeEscape(text);
  }
}
