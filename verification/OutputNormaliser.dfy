/** What the output normaliser drops and what it keeps, character by character (isolate_job.rb). */
module OutputNormaliser {
  import opened RubyText

  /***** cutting two texts written one after the other *****/

  /** The pieces of two texts one after the other: the last of the first and the first of the second are one. */
  function Glue(ps: seq<string>, qs: seq<string>): (rs: seq<string>)
    requires ps != [] && qs != []
    ensures |rs| == |ps| + |qs| - 1
    ensures forall i :: 0 <= i < |ps| - 1 ==> rs[i] == ps[i]
    ensures rs[|ps| - 1] == ps[|ps| - 1] + qs[0]
    ensures forall i :: |ps| <= i < |rs| ==> rs[i] == qs[i - |ps| + 1]
  {
    ps[..|ps| - 1] + [ps[|ps| - 1] + qs[0]] + qs[1..]
  }

  /** One character more in front. */
  function Push(c: char, sep: char, ps: seq<string>): (rs: seq<string>)
    requires ps != []
    ensures rs != []
  {
    if c == sep then [""] + ps else [[c] + ps[0]] + ps[1..]
  }

  lemma GluePush(c: char, sep: char, ps: seq<string>, qs: seq<string>)
    requires ps != [] && qs != []
    ensures Glue(Push(c, sep, ps), qs) == Push(c, sep, Glue(ps, qs))
  {
    if |ps| == 1 {
      assert [c] + ps[0] + qs[0] == [c] + (ps[0] + qs[0]);
    }
  }

  lemma GlueNothing(qs: seq<string>)
    requires qs != []
    ensures Glue([""], qs) == qs
  {
    assert "" + qs[0] == qs[0];
  }

  lemma PiecesPush(s: string, sep: char)
    requires s != ""
    ensures Pieces(s, sep) == Push(s[0], sep, Pieces(s[1..], sep))
  {
  }

  lemma {:induction false} PiecesAppend(a: string, b: string, sep: char)
    ensures Pieces(a + b, sep) == Glue(Pieces(a, sep), Pieces(b, sep))
  {
    if a == "" {
      assert a + b == b;
      GlueNothing(Pieces(b, sep));
    } else {
      var ps, qs := Pieces(a[1..], sep), Pieces(b, sep);
      PiecesPush(a, sep);
      GluePush(a[0], sep, ps, qs);
      assert Pieces(a + b, sep) == Push(a[0], sep, Glue(ps, qs)) by {
        PiecesAppend(a[1..], b, sep);
        PiecesPush(a + b, sep);
        assert (a + b)[1..] == a[1..] + b;
      }
    }
  }

  /***** what is dropped *****/

  lemma RStripSpace(s: string, c: char)
    requires IsSpace(c)
    ensures RStrip(s + [c]) == RStrip(s)
  {
    assert (s + [c])[..|s|] == s;
  }

  /** Texts whose pieces trim to the same lines, empty ones at the end aside, are normalised to the same. */
  lemma SameTrimmed(a: string, b: string, ps: seq<string>, qs: seq<string>)
    requires Pieces(a, '\n') == ps && Pieces(b, '\n') == qs && |qs| <= |ps|
    requires forall i :: 0 <= i < |qs| ==> RStrip(ps[i]) == RStrip(qs[i])
    requires forall i :: |qs| <= i < |ps| ==> RStrip(ps[i]) == ""
    ensures Strip(a) == Strip(b)
  {
    StripEqualIff(a, b);
  }

  lemma GlueTrimmed(ps: seq<string>, xs: seq<string>, ys: seq<string>)
    requires ps != [] && xs != [] && |xs| == |ys| && xs[1..] == ys[1..]
    requires RStrip(ps[|ps| - 1] + xs[0]) == RStrip(ps[|ps| - 1] + ys[0])
    ensures forall i :: 0 <= i < |Glue(ps, xs)| ==> RStrip(Glue(ps, xs)[i]) == RStrip(Glue(ps, ys)[i])
  {
    forall i | 0 <= i < |Glue(ps, xs)|
      ensures RStrip(Glue(ps, xs)[i]) == RStrip(Glue(ps, ys)[i])
    {
      if i >= |ps| {
        assert xs[1..][i - |ps|] == ys[1..][i - |ps|];
      }
    }
  }

  /** Two ends of a text that differ in their first pieces only, and there not after trimming. */
  lemma SameEnds(a: string, x: string, y: string, ps: seq<string>, xs: seq<string>, ys: seq<string>)
    requires ps == Pieces(a, '\n') && xs == Pieces(x, '\n') && ys == Pieces(y, '\n')
    requires |xs| == |ys| && xs[1..] == ys[1..]
    requires RStrip(ps[|ps| - 1] + xs[0]) == RStrip(ps[|ps| - 1] + ys[0])
    ensures Strip(a + x) == Strip(a + y)
  {
    PiecesAppend(a, x, '\n');
    PiecesAppend(a, y, '\n');
    GlueTrimmed(ps, xs, ys);
    SameTrimmed(a + x, a + y, Glue(ps, xs), Glue(ps, ys));
  }

  /** White space before a newline does not count. */
  lemma SpaceBeforeNewline(a: string, c: char, b: string)
    requires c in {'\0', '\t', '\U{0B}', '\U{0C}', '\r', ' '}
    ensures Strip(a + [c] + "\n" + b) == Strip(a + "\n" + b)
  {
    var x, y := [c] + ['\n'] + b, [] + ['\n'] + b;
    var ps := Pieces(a, '\n');
    assert a + [c] + "\n" + b == a + x && a + "\n" + b == a + y;
    PiecesConcat([c], b, '\n');
    PiecesConcat([], b, '\n');
    assert ps[|ps| - 1] + [] == ps[|ps| - 1];
    RStripSpace(ps[|ps| - 1], c);
    SameEnds(a, x, y, ps, [[c]] + Pieces(b, '\n'), [[]] + Pieces(b, '\n'));
  }

  lemma NewlinePieces(s: string)
    requires s == ['\n']
    ensures |Pieces(s, '\n')| == 2 && Pieces(s, '\n')[0] == Pieces(s, '\n')[1] == ""
  {
    PiecesPush(s, '\n');
    assert s[1..] == "";
  }

  lemma NewlineAtEnd(a: string, s: string)
    requires s == ['\n']
    ensures Strip(a + s) == Strip(a)
  {
    var ps, qs := Pieces(a, '\n'), Pieces(s, '\n');
    NewlinePieces(s);
    PiecesAppend(a, s, '\n');
    assert ps[|ps| - 1] + qs[0] == ps[|ps| - 1];
    SameTrimmed(a + s, a, Glue(ps, qs), ps);
  }

  /** Nor does white space, or a newline, at the end of the text. */
  lemma SpaceAtEnd(a: string, c: char)
    requires c in {'\0', '\t', '\n', '\U{0B}', '\U{0C}', '\r', ' '}
    ensures Strip(a + [c]) == Strip(a)
  {
    if c == '\n' {
      NewlineAtEnd(a, [c]);
    } else {
      var ps := Pieces(a, '\n');
      PiecesAppend(a, [c], '\n');
      PiecesOfClean([c], '\n');
      RStripSpace(ps[|ps| - 1], c);
      SameTrimmed(a + [c], a, Glue(ps, [[c]]), ps);
    }
  }

  /***** what is kept *****/

  /** Neither a line of the result nor the result itself ends in NUL, tab, newline, VT, FF, return or blank. */
  lemma NoSpaceAtLineEnds(text: string)
    ensures forall line :: line in Pieces(Strip(text), '\n') && line != "" ==>
              line[|line| - 1] !in {'\0', '\t', '\n', '\U{0B}', '\U{0C}', '\r', ' '}
    ensures Strip(text) != "" ==> Strip(text)[|Strip(text)| - 1] !in {'\0', '\t', '\n', '\U{0B}', '\U{0C}', '\r', ' '}
  {
    StripTrims(text);
  }

  lemma NothingToTrim(ps: seq<string>)
    requires ps != [] && ps[|ps| - 1] != "" && forall i :: 0 <= i < |ps| ==> IsTrimmed(ps[i])
    ensures DropEmptyTail(RStripAll(ps)) == ps
  {
    forall i | 0 <= i < |ps|
      ensures RStrip(ps[i]) == ps[i]
    {
      TrimmedIff(ps[i]);
    }
    assert RStripAll(ps) == ps;
  }

  /** A text that is in normal form is left as it is. */
  lemma TrimmedStays(text: string, ps: seq<string>)
    requires ps == Pieces(text, '\n') && ps[|ps| - 1] != "" && forall i :: 0 <= i < |ps| ==> IsTrimmed(ps[i])
    ensures Strip(text) == text
  {
    NothingToTrim(ps);
    StripIsLines(text);
    JoinOfPieces(text, '\n');
  }

  lemma StrippedEnd(text: string, ls: seq<string>, ps: seq<string>)
    requires Strip(text) == text && ls == Lines(text) && ps == Pieces(text, '\n')
    ensures text == "" || ps[|ps| - 1] != ""
  {
    StripPieces(text);
    if ls == [] {
      assert ps == [""] && Join(ps, '\n') == "";
      JoinOfPieces(text, '\n');
    } else {
      LinesClean(text);
    }
  }

  lemma UnchangedIffTrimmed(text: string, ps: seq<string>)
    requires ps == Pieces(text, '\n')
    ensures Strip(text) == text <==>
            (forall line :: line in ps ==> IsTrimmed(line)) && (text == "" || ps[|ps| - 1] != "")
  {
    if Strip(text) == text {
      StripTrims(text);
      StrippedEnd(text, Lines(text), ps);
    } else if text != "" && ps[|ps| - 1] != "" && forall line :: line in ps ==> IsTrimmed(line) {
      assert forall i :: 0 <= i < |ps| ==> ps[i] in ps;
      TrimmedStays(text, ps);
    }
  }

  /** Everything else counts: the texts left as they are have no white space at a line's end and no empty last line. */
  lemma StripUnchangedIff(text: string)
    ensures Strip(text) == text <==>
            && (forall line :: line in Pieces(text, '\n') && line != "" ==>
                  line[|line| - 1] !in {'\0', '\t', '\n', '\U{0B}', '\U{0C}', '\r', ' '})
            && (text == "" || Pieces(text, '\n')[|Pieces(text, '\n')| - 1] != "")
  {
    UnchangedIffTrimmed(text, Pieces(text, '\n'));
  }

  lemma CleanLine(s: string)
    requires '\n' !in s && (s == "" || s[|s| - 1] !in {'\0', '\t', '\n', '\U{0B}', '\U{0C}', '\r', ' '})
    ensures Strip(s) == s
  {
    PiecesOfClean(s, '\n');
    StripUnchangedIff(s);
  }

  /** Two lines that end in different characters, neither of them white space, compare as different. */
  lemma DifferentEnds(a: string, x: char, b: string, y: char)
    requires '\n' !in a && '\n' !in b && x != y
    requires x !in {'\0', '\t', '\n', '\U{0B}', '\U{0C}', '\r', ' '}
    requires y !in {'\0', '\t', '\n', '\U{0B}', '\U{0C}', '\r', ' '}
    ensures Strip(a + [x]) != Strip(b + [y])
  {
    CleanLine(a + [x]);
    CleanLine(b + [y]);
    assert (a + [x])[|a + [x]| - 1] == x;
    assert (b + [y])[|b + [y]| - 1] == y;
  }
}
