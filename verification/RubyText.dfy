/** Ruby's `split`, `join` and `rstrip`, and the two text functions of the worker built from them (isolate_job.rb). */
module RubyText {
  import opened Wrappers

  /***** split and join *****/

  /** All pieces between occurrences of the separator, trailing empty ones included. */
  function Pieces(s: string, sep: char): (ps: seq<string>)
    ensures |ps| >= 1
  {
    if s == "" then [""]
    else
      var rest := Pieces(s[1..], sep);
      if s[0] == sep then [""] + rest else [[s[0]] + rest[0]] + rest[1..]
  }

  function DropEmptyTail(ps: seq<string>): seq<string> {
    if ps != [] && ps[|ps| - 1] == "" then DropEmptyTail(ps[..|ps| - 1]) else ps
  }

  /** `s.split(sep)`: trailing empty pieces are dropped. */
  function Split(s: string, sep: char): seq<string> {
    DropEmptyTail(Pieces(s, sep))
  }

  function Join(ps: seq<string>, sep: char): string {
    if ps == [] then "" else if |ps| == 1 then ps[0] else ps[0] + [sep] + Join(ps[1..], sep)
  }

  predicate AllWithout(ps: seq<string>, c: char) {
    forall i :: 0 <= i < |ps| ==> c !in ps[i]
  }

  lemma {:induction false} PiecesWithout(s: string, sep: char)
    ensures AllWithout(Pieces(s, sep), sep)
  {
    if s != "" {
      PiecesWithout(s[1..], sep);
    }
  }

  lemma {:induction false} PiecesOfClean(s: string, sep: char)
    requires sep !in s
    ensures Pieces(s, sep) == [s]
  {
    if s != "" {
      PiecesOfClean(s[1..], sep);
      assert s == [s[0]] + s[1..];
    }
  }

  lemma {:induction false} PiecesConcat(a: string, b: string, sep: char)
    requires sep !in a
    ensures Pieces(a + [sep] + b, sep) == [a] + Pieces(b, sep)
  {
    if a == "" {
      assert (a + [sep] + b)[1..] == b;
    } else {
      PiecesConcat(a[1..], b, sep);
      assert (a + [sep] + b)[1..] == a[1..] + [sep] + b;
      assert [a[0]] + a[1..] == a;
    }
  }

  /** Joining and cutting again gives the pieces back. */
  lemma {:induction false} PiecesOfJoin(ps: seq<string>, sep: char)
    requires ps != [] && AllWithout(ps, sep)
    ensures Pieces(Join(ps, sep), sep) == ps
  {
    if |ps| == 1 {
      PiecesOfClean(ps[0], sep);
    } else {
      PiecesOfJoin(ps[1..], sep);
      PiecesConcat(ps[0], Join(ps[1..], sep), sep);
    }
  }

  lemma {:induction false} JoinOfPieces(s: string, sep: char)
    ensures Join(Pieces(s, sep), sep) == s
  {
    if s != "" {
      JoinOfPieces(s[1..], sep);
      var rest := Pieces(s[1..], sep);
      if s[0] == sep {
        assert Pieces(s, sep)[1..] == rest;
      } else {
        assert Pieces(s, sep)[1..] == rest[1..];
      }
    }
  }

  lemma {:induction false} DropEmptyTailFacts(ps: seq<string>)
    ensures |DropEmptyTail(ps)| <= |ps| && DropEmptyTail(ps) == ps[..|DropEmptyTail(ps)|]
    ensures forall i :: |DropEmptyTail(ps)| <= i < |ps| ==> ps[i] == ""
    ensures DropEmptyTail(ps) != [] ==> DropEmptyTail(ps)[|DropEmptyTail(ps)| - 1] != ""
  {
    if ps != [] && ps[|ps| - 1] == "" {
      DropEmptyTailFacts(ps[..|ps| - 1]);
    }
  }

  /***** rstrip *****/

  predicate IsSpace(c: char) {
    c == '\0' || c == '\t' || c == '\n' || c == '\U{0B}' || c == '\U{0C}' || c == '\r' || c == ' '
  }

  function RStrip(s: string): (r: string)
    ensures |r| <= |s| && r == s[..|r|]
    ensures r != "" ==> !IsSpace(r[|r| - 1])
    ensures forall i :: |r| <= i < |s| ==> IsSpace(s[i])
  {
    if s != "" && IsSpace(s[|s| - 1]) then RStrip(s[..|s| - 1]) else s
  }

  function RStripAll(ps: seq<string>): (rs: seq<string>)
    ensures |rs| == |ps| && forall i :: 0 <= i < |ps| ==> rs[i] == RStrip(ps[i])
  {
    seq(|ps|, i requires 0 <= i < |ps| => RStrip(ps[i]))
  }

  lemma RStripUnique(s: string, r: string)
    requires |r| <= |s| && r == s[..|r|]
    requires r != "" ==> !IsSpace(r[|r| - 1])
    requires forall i :: |r| <= i < |s| ==> IsSpace(s[i])
    ensures RStrip(s) == r
  {
    var q := RStrip(s);
    assert r == "" || r[|r| - 1] == s[|r| - 1];
    assert q == "" || q[|q| - 1] == s[|q| - 1];
  }

  /***** the output normaliser *****/

  /** `text.split("\n").collect(&:rstrip).join("\n").rstrip` for text in a valid encoding. */
  function Strip(text: string): string {
    RStrip(Join(RStripAll(Split(text, '\n')), '\n'))
  }

  /** The lines of a text, right-trimmed, without the empty ones at the end: what a comparison looks at. */
  function Lines(text: string): seq<string> {
    DropEmptyTail(RStripAll(Pieces(text, '\n')))
  }

  /** Line `i` of a text after right-trimming; a missing line reads as empty. */
  function Line(text: string, i: nat): string {
    var ps := Pieces(text, '\n');
    if i < |ps| then RStrip(ps[i]) else ""
  }

  lemma {:induction false} JoinOfEmpties(ps: seq<string>, sep: char)
    requires forall i :: 0 <= i < |ps| ==> ps[i] == ""
    ensures forall i :: 0 <= i < |Join(ps, sep)| ==> Join(ps, sep)[i] == sep
  {
    if |ps| > 1 {
      JoinOfEmpties(ps[1..], sep);
    }
  }

  lemma {:induction false} JoinPrefix(ps: seq<string>, n: nat, sep: char)
    requires 0 < n <= |ps| && forall i :: n <= i < |ps| ==> ps[i] == ""
    ensures |Join(ps[..n], sep)| <= |Join(ps, sep)| && Join(ps[..n], sep) == Join(ps, sep)[..|Join(ps[..n], sep)|]
    ensures forall i :: |Join(ps[..n], sep)| <= i < |Join(ps, sep)| ==> Join(ps, sep)[i] == sep
  {
    if |ps| == 1 {
      assert ps[..n] == ps;
    } else if n == 1 {
      JoinOfEmpties(ps[1..], sep);
      assert ps[..n] == [ps[0]];
    } else {
      JoinPrefix(ps[1..], n - 1, sep);
      assert ps[..n][1..] == ps[1..][..n - 1];
      var a, b := Join(ps[1..][..n - 1], sep), Join(ps[1..], sep);
      var front := ps[0] + [sep];
      assert Join(ps[..n], sep) == front + a;
      assert Join(ps, sep) == front + b;
      forall i | |front + a| <= i < |front + b|
        ensures (front + b)[i] == sep
      {
        assert (front + b)[i] == b[i - |front|];
      }
      assert (front + b)[..|front + a|] == front + b[..|a|];
    }
  }

  lemma {:induction false} JoinEnd(ps: seq<string>, sep: char)
    requires ps != [] && ps[|ps| - 1] != ""
    ensures Join(ps, sep) != "" && Join(ps, sep)[|Join(ps, sep)| - 1] == ps[|ps| - 1][|ps[|ps| - 1]| - 1]
  {
    if |ps| > 1 {
      JoinEnd(ps[1..], sep);
    }
  }

  lemma {:induction false} DropPrefix(ps: seq<string>, n: nat)
    requires n <= |ps| && forall i :: n <= i < |ps| ==> ps[i] == ""
    ensures DropEmptyTail(ps[..n]) == DropEmptyTail(ps)
  {
    if n == |ps| {
      assert ps[..n] == ps;
    } else {
      DropPrefix(ps[..|ps| - 1], n);
      assert ps[..|ps| - 1][..n] == ps[..n];
    }
  }

  lemma DropTrimmed(ps: seq<string>)
    ensures DropEmptyTail(RStripAll(DropEmptyTail(ps))) == DropEmptyTail(RStripAll(ps))
  {
    DropEmptyTailFacts(ps);
    var n := |DropEmptyTail(ps)|;
    assert RStripAll(DropEmptyTail(ps)) == RStripAll(ps)[..n];
    DropPrefix(RStripAll(ps), n);
  }

  predicate IsTrimmed(s: string) {
    s == "" || !IsSpace(s[|s| - 1])
  }

  lemma TrimmedIff(s: string)
    ensures IsTrimmed(s) <==> RStrip(s) == s
  {
  }

  lemma RStripAllTrimmed(ps: seq<string>)
    ensures forall i :: 0 <= i < |RStripAll(ps)| ==> IsTrimmed(RStripAll(ps)[i])
  {
  }

  lemma JoinTrimmed(ps: seq<string>)
    requires ps != [] && ps[|ps| - 1] != "" && IsTrimmed(ps[|ps| - 1])
    ensures IsTrimmed(Join(ps, '\n'))
  {
    JoinEnd(ps, '\n');
  }

  lemma RStripKept(ls: seq<string>, n: nat)
    requires 0 < n <= |ls| && ls[n - 1] != "" && IsTrimmed(ls[n - 1])
    requires forall i :: n <= i < |ls| ==> ls[i] == ""
    ensures RStrip(Join(ls, '\n')) == Join(ls[..n], '\n')
  {
    JoinPrefix(ls, n, '\n');
    JoinTrimmed(ls[..n]);
    RStripUnique(Join(ls, '\n'), Join(ls[..n], '\n'));
  }

  lemma RStripSplit(ls: seq<string>, n: nat)
    requires n <= |ls| && (n > 0 ==> ls[n - 1] != "" && IsTrimmed(ls[n - 1]))
    requires forall i :: n <= i < |ls| ==> ls[i] == ""
    ensures RStrip(Join(ls, '\n')) == Join(ls[..n], '\n')
  {
    if n == 0 {
      JoinOfEmpties(ls, '\n');
      RStripUnique(Join(ls, '\n'), "");
    } else {
      RStripKept(ls, n);
    }
  }

  /** Stripping a joined list of trimmed lines drops the empty ones at the end. */
  lemma RStripJoin(trimmed: seq<string>)
    requires forall i :: 0 <= i < |trimmed| ==> IsTrimmed(trimmed[i])
    ensures RStrip(Join(trimmed, '\n')) == Join(DropEmptyTail(trimmed), '\n')
  {
    DropEmptyTailFacts(trimmed);
    RStripSplit(trimmed, |DropEmptyTail(trimmed)|);
  }

  /** The normal form: the trimmed lines joined again. */
  lemma StripIsLines(text: string)
    ensures Strip(text) == Join(Lines(text), '\n')
  {
    var trimmed := RStripAll(Split(text, '\n'));
    assert DropEmptyTail(trimmed) == Lines(text) by {
      DropTrimmed(Pieces(text, '\n'));
    }
    RStripAllTrimmed(Split(text, '\n'));
    RStripJoin(trimmed);
  }

  lemma LinesClean(text: string)
    ensures AllWithout(Lines(text), '\n')
    ensures forall i :: 0 <= i < |Lines(text)| ==> IsTrimmed(Lines(text)[i])
    ensures Lines(text) != [] ==> Lines(text)[|Lines(text)| - 1] != ""
  {
    var ps := Pieces(text, '\n');
    PiecesWithout(text, '\n');
    DropEmptyTailFacts(RStripAll(ps));
    forall i | 0 <= i < |Lines(text)|
      ensures '\n' !in Lines(text)[i] && IsTrimmed(Lines(text)[i])
    {
      assert Lines(text)[i] == RStrip(ps[i]);
    }
  }

  /** The lines of a normalised text are the trimmed lines, or one empty line when there are none. */
  lemma StripPieces(text: string)
    ensures Pieces(Strip(text), '\n') == if Lines(text) == [] then [""] else Lines(text)
  {
    StripIsLines(text);
    LinesClean(text);
    if Lines(text) != [] {
      PiecesOfJoin(Lines(text), '\n');
    }
  }

  /** No line of the result ends in white space, and the result does not end in a newline or other white space. */
  lemma StripTrims(text: string)
    ensures forall line :: line in Pieces(Strip(text), '\n') ==> IsTrimmed(line)
    ensures IsTrimmed(Strip(text))
  {
    var ls := Lines(text);
    LinesClean(text);
    forall line | line in (if ls == [] then [""] else ls)
      ensures IsTrimmed(line)
    {
    }
    StripPieces(text);
  }

  lemma TrimmedLines(ls: seq<string>, text: string)
    requires ls == Lines(text)
    ensures DropEmptyTail(RStripAll(if ls == [] then [""] else ls)) == ls
  {
    LinesClean(text);
    if ls == [] {
      assert RStripAll([""]) == [""];
      assert [""][..0] == [];
    } else {
      forall i | 0 <= i < |ls|
        ensures RStrip(ls[i]) == ls[i]
      {
        TrimmedIff(ls[i]);
      }
      assert RStripAll(ls) == ls;
    }
  }

  lemma StripIdempotent(text: string)
    ensures Strip(Strip(text)) == Strip(text)
  {
    StripPieces(text);
    TrimmedLines(Lines(text), text);
    assert Lines(Strip(text)) == Lines(text);
    StripIsLines(text);
    StripIsLines(Strip(text));
  }

  function Padded(ls: seq<string>, i: nat): string {
    if i < |ls| then ls[i] else ""
  }

  lemma LinesAt(text: string, i: nat)
    ensures Line(text, i) == Padded(Lines(text), i)
  {
    DropEmptyTailFacts(RStripAll(Pieces(text, '\n')));
  }

  lemma PaddedEqual(x: seq<string>, y: seq<string>)
    requires x == [] || x[|x| - 1] != ""
    requires y == [] || y[|y| - 1] != ""
    requires forall i: nat :: Padded(x, i) == Padded(y, i)
    ensures x == y
  {
    assert x == [] || Padded(x, |x| - 1) == Padded(y, |x| - 1);
    assert y == [] || Padded(x, |y| - 1) == Padded(y, |y| - 1);
    assert |x| == |y|;
    forall i | 0 <= i < |x|
      ensures x[i] == y[i]
    {
      assert Padded(x, i) == Padded(y, i);
    }
  }

  /** Line by line the same, right-trimmed, with missing lines read as empty. */
  ghost predicate SameLines(a: string, b: string) {
    forall i: nat :: Line(a, i) == Line(b, i)
  }

  /** Two outputs compare equal exactly when they agree line by line. */
  lemma StripEqualIff(a: string, b: string)
    ensures Strip(a) == Strip(b) <==> SameLines(a, b)
  {
    LinesClean(a);
    LinesClean(b);
    if Strip(a) == Strip(b) {
      StripPieces(a);
      StripPieces(b);
      assert Lines(a) == Lines(b);
    }
    forall i: nat
      ensures Line(a, i) == Padded(Lines(a), i) && Line(b, i) == Padded(Lines(b), i)
    {
      LinesAt(a, i);
      LinesAt(b, i);
    }
    if forall i: nat :: Line(a, i) == Line(b, i) {
      forall i: nat
        ensures Padded(Lines(a), i) == Padded(Lines(b), i)
      {
        assert Line(a, i) == Line(b, i);
      }
      PaddedEqual(Lines(a), Lines(b));
      StripIsLines(a);
      StripIsLines(b);
    }
  }

  /***** the metadata parser *****/

  /** One line of the metadata file; a line of colons only has no first part and raises. */
  function Entry(line: string): Result<(string, string)> {
    var parts := Split(line, ':');
    if parts == [] then Raised("undefined method `to_sym' for nil:NilClass")
    else Ok((parts[0], Join(parts[1..], ':')))
  }

  /** Collecting and merging the entries: later lines win. */
  function MergeLines(lines: seq<string>): Result<map<string, string>> {
    if lines == [] then Ok(map[])
    else
      match MergeLines(lines[..|lines| - 1])
      case Raised(e) => Raised(e)
      case Ok(m) =>
        match Entry(lines[|lines| - 1])
        case Raised(e) => Raised(e)
        case Ok(kv) => Ok(m[kv.0 := kv.1])
  }

  function GetMetadata(text: string): Result<map<string, string>> {
    MergeLines(Split(text, '\n'))
  }

  predicate AllColons(s: string) {
    forall i :: 0 <= i < |s| ==> s[i] == ':'
  }

  function DropColons(v: string): string {
    if v != "" && v[|v| - 1] == ':' then DropColons(v[..|v| - 1]) else v
  }

  lemma {:induction false} DropColonsUnique(v: string, r: string)
    requires |r| <= |v| && r == v[..|r|] && (r != "" ==> r[|r| - 1] != ':') && AllColons(v[|r|..])
    ensures DropColons(v) == r
  {
    if |r| < |v| {
      assert v[|r|..][|v| - 1 - |r|] == ':';
      assert forall i :: |r| <= i < |v| - 1 ==> v[i] == v[|r|..][i - |r|];
      DropColonsUnique(v[..|v| - 1], r);
    }
  }

  /** `printed` is `read` followed by colons, and `read` ends in none. */
  predicate ColonsDropped(printed: string, read: string) {
    && |read| <= |printed| && read == printed[..|read|]
    && (forall i :: |read| <= i < |printed| ==> printed[i] == ':')
    && (read == "" || read[|read| - 1] != ':')
  }

  /** What it drops are colons, all of them at the end. */
  lemma {:induction false} DropColonsByValue(v: string)
    ensures ColonsDropped(v, DropColons(v))
  {
    if v != "" && v[|v| - 1] == ':' {
      DropColonsByValue(v[..|v| - 1]);
    }
  }

  /** Splitting at colons and joining again drops the colons at the end and nothing else. */
  lemma RejoinDropsColons(v: string)
    ensures Join(Split(v, ':'), ':') == DropColons(v)
    ensures Split(v, ':') == [] <==> AllColons(v)
  {
    var ps := Pieces(v, ':');
    JoinOfPieces(v, ':');
    DropEmptyTailFacts(ps);
    PiecesWithout(v, ':');
    var n := |Split(v, ':')|;
    if n == 0 {
      JoinOfEmpties(ps, ':');
      DropColonsUnique(v, "");
    } else {
      JoinPrefix(ps, n, ':');
      JoinEnd(ps[..n], ':');
      DropColonsUnique(v, Join(ps[..n], ':'));
      assert v[|Join(ps[..n], ':')| - 1] != ':';
    }
  }

  lemma EntryRaisesIff(line: string)
    ensures Entry(line).Raised? <==> AllColons(line)
  {
    RejoinDropsColons(line);
  }

  /** Parsing raises exactly when some line is empty or made of colons only, trailing empty lines aside. */
  lemma {:induction false} MergeRaisesIff(lines: seq<string>)
    ensures MergeLines(lines).Raised? <==> exists i :: 0 <= i < |lines| && AllColons(lines[i])
  {
    if lines != [] {
      var n := |lines| - 1;
      MergeRaisesIff(lines[..n]);
      EntryRaisesIff(lines[n]);
      assert forall i :: 0 <= i < n ==> lines[..n][i] == lines[i];
    }
  }

  lemma MetadataRaisesIff(text: string)
    ensures GetMetadata(text).Raised? <==>
            exists line :: line in Split(text, '\n') && forall i :: 0 <= i < |line| ==> line[i] == ':'
  {
    var lines := Split(text, '\n');
    MergeRaisesIff(lines);
    assert forall line :: AllColons(line) <==> forall i :: 0 <= i < |line| ==> line[i] == ':';
    assert forall i :: 0 <= i < |lines| ==> lines[i] in lines;
  }

  type KeyValues = seq<(string, string)>

  predicate Printable(kvs: KeyValues) {
    forall i :: 0 <= i < |kvs| ==> kvs[i].0 != "" && ':' !in kvs[i].0 && '\n' !in kvs[i].0 && '\n' !in kvs[i].1
  }

  function PrintLine(kv: (string, string)): string {
    kv.0 + ":" + kv.1
  }

  /** The file isolate writes: one `key:value` line per entry. */
  function Print(kvs: KeyValues): string {
    if kvs == [] then "" else PrintLine(kvs[0]) + "\n" + Print(kvs[1..])
  }

  function PrintLines(kvs: KeyValues): (ls: seq<string>)
    ensures |ls| == |kvs|
  {
    seq(|kvs|, i requires 0 <= i < |kvs| => PrintLine(kvs[i]))
  }

  lemma {:induction false} PrintPieces(kvs: KeyValues)
    requires Printable(kvs)
    ensures Pieces(Print(kvs), '\n') == PrintLines(kvs) + [""]
  {
    if kvs != [] {
      PrintPieces(kvs[1..]);
      assert '\n' !in PrintLine(kvs[0]);
      PiecesConcat(PrintLine(kvs[0]), Print(kvs[1..]), '\n');
      assert PrintLine(kvs[0]) + ['\n'] + Print(kvs[1..]) == Print(kvs);
      assert PrintLines(kvs) == [PrintLine(kvs[0])] + PrintLines(kvs[1..]);
    }
  }

  lemma PrintSplit(kvs: KeyValues)
    requires Printable(kvs)
    ensures Split(Print(kvs), '\n') == PrintLines(kvs)
  {
    PrintPieces(kvs);
    var ps := PrintLines(kvs) + [""];
    assert ps[..|ps| - 1] == PrintLines(kvs);
    if kvs != [] {
      assert |PrintLine(kvs[|kvs| - 1])| >= 1;
    }
    assert DropEmptyTail(ps) == DropEmptyTail(PrintLines(kvs));
  }

  lemma {:induction false} KeepHead(k: string, ps: seq<string>)
    requires k != ""
    ensures DropEmptyTail([k] + ps) == [k] + DropEmptyTail(ps)
  {
    if ps == [] {
      assert [k] + ps == [k];
    } else {
      assert ([k] + ps)[|ps|] == ps[|ps| - 1];
      assert ([k] + ps)[..|ps|] == [k] + ps[..|ps| - 1];
      KeepHead(k, ps[..|ps| - 1]);
    }
  }

  /** A printed line parses to its key and its value without trailing colons; inner colons stay. */
  lemma EntryOfPrinted(kv: (string, string))
    requires kv.0 != "" && ':' !in kv.0
    ensures Entry(PrintLine(kv)) == Ok((kv.0, DropColons(kv.1)))
  {
    PiecesConcat(kv.0, kv.1, ':');
    assert kv.0 + [':'] + kv.1 == PrintLine(kv);
    KeepHead(kv.0, Pieces(kv.1, ':'));
    RejoinDropsColons(kv.1);
  }

  predicate LastOfKey(kvs: KeyValues, i: int) {
    0 <= i < |kvs| && forall j :: i < j < |kvs| ==> kvs[j].0 != kvs[i].0
  }

  function LastValues(kvs: KeyValues): map<string, string> {
    if kvs == [] then map[]
    else LastValues(kvs[..|kvs| - 1])[kvs[|kvs| - 1].0 := DropColons(kvs[|kvs| - 1].1)]
  }

  lemma {:induction false} MergePrinted(kvs: KeyValues)
    requires Printable(kvs)
    ensures MergeLines(PrintLines(kvs)) == Ok(LastValues(kvs))
  {
    if kvs != [] {
      var n := |kvs| - 1;
      MergePrinted(kvs[..n]);
      assert PrintLines(kvs)[..n] == PrintLines(kvs[..n]);
      EntryOfPrinted(kvs[n]);
    }
  }

  lemma {:induction false} LastValuesKeys(kvs: KeyValues, k: string)
    ensures k in LastValues(kvs) <==> exists i :: 0 <= i < |kvs| && kvs[i].0 == k
  {
    if kvs != [] {
      var n := |kvs| - 1;
      LastValuesKeys(kvs[..n], k);
      if i :| 0 <= i < n && kvs[i].0 == k {
        assert kvs[..n][i].0 == k;
      }
    }
  }

  lemma {:induction false} LastValuesAt(kvs: KeyValues, i: nat)
    requires LastOfKey(kvs, i)
    ensures kvs[i].0 in LastValues(kvs) && LastValues(kvs)[kvs[i].0] == DropColons(kvs[i].1)
  {
    var n := |kvs| - 1;
    if i < n {
      assert kvs[n].0 != kvs[i].0;
      assert LastOfKey(kvs[..n], i);
      LastValuesAt(kvs[..n], i);
    }
  }

  lemma MetadataLastValues(kvs: KeyValues)
    requires Printable(kvs)
    ensures GetMetadata(Print(kvs)).Ok?
    ensures var m := GetMetadata(Print(kvs)).value;
            && (forall k :: k in m <==> exists i :: 0 <= i < |kvs| && kvs[i].0 == k)
            && (forall i :: LastOfKey(kvs, i) ==> m[kvs[i].0] == DropColons(kvs[i].1))
  {
    PrintSplit(kvs);
    MergePrinted(kvs);
    var m := GetMetadata(Print(kvs)).value;
    forall k: string
      ensures k in m <==> exists i :: 0 <= i < |kvs| && kvs[i].0 == k
    {
      LastValuesKeys(kvs, k);
    }
    forall i | LastOfKey(kvs, i)
      ensures kvs[i].0 in m && m[kvs[i].0] == DropColons(kvs[i].1)
    {
      LastValuesAt(kvs, i);
    }
  }

  /** Round trip: exactly the printed keys, each with its last value less the colons at the end. */
  lemma MetadataRoundTrip(kvs: KeyValues)
    requires Printable(kvs)
    ensures GetMetadata(Print(kvs)).Ok?
    ensures var m := GetMetadata(Print(kvs)).value;
            && (forall k :: k in m <==> exists i :: 0 <= i < |kvs| && kvs[i].0 == k)
            && (forall i | 0 <= i < |kvs| && forall j :: i < j < |kvs| ==> kvs[j].0 != kvs[i].0 ::
                  ColonsDropped(kvs[i].1, m[kvs[i].0]))
  {
    MetadataLastValues(kvs);
    var m := GetMetadata(Print(kvs)).value;
    forall i | 0 <= i < |kvs| && forall j :: i < j < |kvs| ==> kvs[j].0 != kvs[i].0
      ensures kvs[i].0 in m && ColonsDropped(kvs[i].1, m[kvs[i].0])
    {
      assert LastOfKey(kvs, i);
      DropColonsByValue(kvs[i].1);
    }
  }

  predicate EndsInColon(v: string) {
    v != "" && v[|v| - 1] == ':'
  }

  lemma {:induction false} DropColonsIff(v: string)
    ensures !EndsInColon(DropColons(v))
    ensures DropColons(v) == v <==> !EndsInColon(v)
    ensures |DropColons(v)| <= |v|
  {
    if EndsInColon(v) {
      DropColonsIff(v[..|v| - 1]);
    }
  }

  lemma {:induction false} LastExists(kvs: KeyValues, i: nat) returns (j: nat)
    requires i < |kvs|
    ensures i <= j && LastOfKey(kvs, j) && kvs[j].0 == kvs[i].0
    decreases |kvs| - i
  {
    j := i;
    if !LastOfKey(kvs, i) {
      var k :| i < k < |kvs| && kvs[k].0 == kvs[i].0;
      j := LastExists(kvs, k);
    }
  }

  /**
   The parse gives every printed value back exactly when no value ends in a colon and equal keys have equal values.
   */
  lemma MetadataIdentityIff(kvs: KeyValues)
    requires Printable(kvs)
    ensures GetMetadata(Print(kvs)).Ok?
    ensures var m := GetMetadata(Print(kvs)).value;
            (forall i :: 0 <= i < |kvs| ==> kvs[i].0 in m && m[kvs[i].0] == kvs[i].1) <==>
            && (forall i :: 0 <= i < |kvs| ==> !EndsInColon(kvs[i].1))
            && (forall i, j :: 0 <= i < j < |kvs| && kvs[i].0 == kvs[j].0 ==> kvs[i].1 == kvs[j].1)
  {
    MetadataLastValues(kvs);
    var m := GetMetadata(Print(kvs)).value;
    forall i | 0 <= i < |kvs|
      ensures exists j :: i <= j < |kvs| && kvs[j].0 == kvs[i].0 && m[kvs[i].0] == DropColons(kvs[j].1)
      ensures !EndsInColon(m[kvs[i].0])
    {
      var j := LastExists(kvs, i);
      DropColonsIff(kvs[j].1);
    }
    forall i | 0 <= i < |kvs|
      ensures DropColons(kvs[i].1) == kvs[i].1 <==> !EndsInColon(kvs[i].1)
    {
      DropColonsIff(kvs[i].1);
    }
  }
}
