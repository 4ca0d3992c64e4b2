/** Whitespace canonicalisation: `" ".join(text.split())`. */
module Words {

  /** The characters `str.split()` and `str.strip()` treat as whitespace. */
  predicate IsSpace(c: char) {
    || '\U{0009}' <= c <= '\U{000D}' || '\U{001C}' <= c <= '\U{0020}'
    || c == '\U{0085}' || c == '\U{00A0}' || c == '\U{1680}'
    || '\U{2000}' <= c <= '\U{200A}' || c == '\U{2028}' || c == '\U{2029}'
    || c == '\U{202F}' || c == '\U{205F}' || c == '\U{3000}'
  }

  predicate IsWord(w: string) {
    w != [] && forall i :: 0 <= i < |w| ==> !IsSpace(w[i])
  }

  /** Length of the run of non-space characters at the front of `s`. */
  function WordEnd(s: string): (n: nat)
    ensures n <= |s|
    ensures forall i :: 0 <= i < n ==> !IsSpace(s[i])
    ensures n < |s| ==> IsSpace(s[n])
  {
    if s == [] || IsSpace(s[0]) then 0 else 1 + WordEnd(s[1..])
  }

  function Split(s: string): (ws: seq<string>)
    ensures forall i :: 0 <= i < |ws| ==> IsWord(ws[i])
    decreases |s|
  {
    if s == [] then []
    else if IsSpace(s[0]) then Split(s[1..])
    else [s[..WordEnd(s)]] + Split(s[WordEnd(s)..])
  }

  function Join(ws: seq<string>): string {
    if |ws| == 0 then "" else if |ws| == 1 then ws[0] else ws[0] + " " + Join(ws[1..])
  }

  /** `_nonempty_string`: some non-space character is left after stripping. */
  predicate NonBlank(s: string) {
    Split(s) != []
  }

  function Canonical(s: string): string {
    Join(Split(s))
  }

  lemma {:induction false} WordEndOfPrefix(w: string, rest: string)
    requires forall i :: 0 <= i < |w| ==> !IsSpace(w[i])
    requires rest != [] ==> IsSpace(rest[0])
    ensures WordEnd(w + rest) == |w|
  {
    if w == [] {
      assert w + rest == rest;
    } else {
      WordEndOfPrefix(w[1..], rest);
      assert (w + rest)[1..] == w[1..] + rest;
    }
  }

  /** Splitting what was joined gives the words back. */
  lemma {:induction false} SplitJoin(ws: seq<string>)
    requires forall i :: 0 <= i < |ws| ==> IsWord(ws[i])
    ensures Split(Join(ws)) == ws
  {
    if |ws| == 0 {
    } else if |ws| == 1 {
      assert ws[0] + [] == ws[0];
      WordEndOfPrefix(ws[0], []);
      assert ws[0][|ws[0]|..] == [];
    } else {
      SplitJoin(ws[1..]);
      var tail := " " + Join(ws[1..]);
      var text := ws[0] + tail;
      WordEndOfPrefix(ws[0], tail);
      assert Join(ws) == text;
      assert text[..|ws[0]|] == ws[0] && text[|ws[0]|..] == tail;
      assert tail[1..] == Join(ws[1..]);
    }
  }

  /** Canonicalising twice is canonicalising once, so a stored summary matches its own request. */
  lemma CanonicalIdempotent(s: string)
    ensures Canonical(Canonical(s)) == Canonical(s)
    ensures NonBlank(Canonical(s)) == NonBlank(s)
  {
    SplitJoin(Split(s));
  }

  /** A text is blank exactly if it is all white space. */
  lemma {:induction false} NonBlankMeans(s: string)
    ensures NonBlank(s) <==> exists i :: 0 <= i < |s| && !IsSpace(s[i])
  {
    if s != [] && IsSpace(s[0]) {
      NonBlankMeans(s[1..]);
      assert forall i :: 0 < i < |s| ==> s[i] == s[1..][i - 1];
    }
  }

  lemma SplitSpace(c: char, s: string)
    requires IsSpace(c)
    ensures Split([c] + s) == Split(s)
  {
    assert ([c] + s)[1..] == s;
  }

  lemma SplitWord(w: string, rest: string)
    requires IsWord(w) && (rest != [] ==> IsSpace(rest[0]))
    ensures Split(w + rest) == [w] + Split(rest)
  {
    WordEndOfPrefix(w, rest);
    assert (w + rest)[..|w|] == w && (w + rest)[|w|..] == rest;
  }

  lemma Apart(head: string, rest: string, tail: string)
    ensures (head + rest) + tail == head + (rest + tail)
  {
  }

  lemma SpaceApart(d: char, rest: string, tail: string, ws: seq<string>)
    requires IsSpace(d) && Split(rest + tail) == Split(rest) + ws
    ensures Split(([d] + rest) + tail) == Split([d] + rest) + ws
  {
    hide Split, IsSpace;
    Apart([d], rest, tail);
    SplitSpace(d, rest);
    SplitSpace(d, rest + tail);
  }

  lemma WordApart(w: string, rest: string, tail: string, ws: seq<string>)
    requires IsWord(w) && (rest != [] ==> IsSpace(rest[0])) && tail != [] && IsSpace(tail[0])
    requires Split(rest + tail) == Split(rest) + ws
    ensures Split((w + rest) + tail) == Split(w + rest) + ws
  {
    hide Split, IsSpace, IsWord;
    Apart(w, rest, tail);
    SplitWord(w, rest);
    SplitWord(w, rest + tail);
    assert [w] + (Split(rest) + ws) == ([w] + Split(rest)) + ws;
  }

  /** White space separates words. */
  lemma {:induction false} SplitApart(x: string, c: char, y: string)
    requires IsSpace(c)
    ensures Split(x + ([c] + y)) == Split(x) + Split(y)
    decreases |x|
  {
    hide Split, IsSpace;
    var tail := [c] + y;
    if x == [] {
      assert x + tail == tail && Split(x) == [] by { SplitNothing(); }
      SplitSpace(c, y);
      assert [] + Split(y) == Split(y);
    } else if IsSpace(x[0]) {
      SplitApart(x[1..], c, y);
      SpaceApart(x[0], x[1..], tail, Split(y));
      assert [x[0]] + x[1..] == x;
    } else {
      FirstWord(x);
      var n := WordEnd(x);
      SplitApart(x[n..], c, y);
      WordApart(x[..n], x[n..], tail, Split(y));
      assert x[..n] + x[n..] == x;
    }
  }

  lemma SplitNothing()
    ensures Split([]) == []
  {
  }

  lemma FirstWord(x: string)
    requires x != [] && !IsSpace(x[0])
    ensures 0 < WordEnd(x) <= |x| && IsWord(x[..WordEnd(x)]) && (WordEnd(x) < |x| ==> IsSpace(x[WordEnd(x)]))
  {
  }

  lemma {:induction false} JoinApart(a: seq<string>, b: seq<string>)
    requires a != [] && b != []
    ensures Join(a + b) == Join(a) + " " + Join(b)
  {
    if |a| == 1 {
      assert (a + b)[1..] == b;
    } else {
      assert (a + b)[1..] == a[1..] + b;
      JoinApart(a[1..], b);
    }
  }

  /** What canonicalising does, on texts of any shape: a word stays, blanks vanish, and white space between two texts
      becomes one blank unless one of them is blank. */
  lemma CanonicalLaws(x: string, c: char, y: string)
    requires IsSpace(c)
    ensures IsWord(x) ==> Canonical(x) == x
    ensures Canonical([]) == [] && Canonical([c]) == []
    ensures Canonical(x + ([c] + y)) ==
      if !NonBlank(x) then Canonical(y) else if !NonBlank(y) then Canonical(x) else Canonical(x) + " " + Canonical(y)
  {
    assert [c] + [] == [c];
    SplitSpace(c, []);
    SplitApart(x, c, y);
    assert [] + Split(y) == Split(y) && Split(x) + [] == Split(x);
    if NonBlank(x) && NonBlank(y) {
      JoinApart(Split(x), Split(y));
    }
    if IsWord(x) {
      SplitWord(x, []);
      assert x + [] == x && [x] + Split([]) == [x];
    }
  }
}
