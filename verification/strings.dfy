/** The two functions of Go's `strings` package that the statistics parser and
    the device-name resolver rely on: `Fields` and `TrimPrefix`. Strings are
    sequences of code points (Go decodes UTF-8 before classifying runes). */
module Strings {

  /** Go's `unicode.IsSpace`: the six ASCII white-space characters, NEL,
      NO-BREAK SPACE and the other code points with Unicode's White_Space
      property. */
  predicate IsSpace(c: char) {
    c == ' ' || c == '\t' || c == '\n' || c == '\U{B}' || c == '\U{C}' || c == '\r'
    || c == '\U{85}' || c == '\U{A0}' || c == '\U{1680}'
    || ('\U{2000}' <= c <= '\U{200A}')
    || c == '\U{2028}' || c == '\U{2029}' || c == '\U{202F}' || c == '\U{205F}' || c == '\U{3000}'
  }

  /** A field as `Fields` yields it: non-empty and free of white space. */
  predicate IsWord(w: string) {
    |w| > 0 && forall i :: 0 <= i < |w| ==> !IsSpace(w[i])
  }

  /** The length of the longest prefix of `s` that holds no white space. */
  function WordLength(s: string): (n: nat)
    ensures n <= |s|
    ensures forall i :: 0 <= i < n ==> !IsSpace(s[i])
    ensures n < |s| ==> IsSpace(s[n])
  {
    if s == [] || IsSpace(s[0]) then 0 else 1 + WordLength(s[1..])
  }

  /** Go's `strings.Fields`: the maximal runs of non-space characters of `s`,
      in order. */
  function Fields(s: string): (fs: seq<string>)
    ensures forall i :: 0 <= i < |fs| ==> IsWord(fs[i])
    decreases |s|
  {
    if s == [] then []
    else if IsSpace(s[0]) then Fields(s[1..])
    else
      var n := WordLength(s);
      [s[..n]] + Fields(s[n..])
  }

  /** The words of `ws` separated by single spaces: the shape of a line of the
      kernel's counter file. */
  function JoinWords(ws: seq<string>): string {
    if ws == [] then ""
    else if |ws| == 1 then ws[0]
    else ws[0] + " " + JoinWords(ws[1..])
  }

  lemma {:induction false} WordLengthOfWord(w: string, rest: string)
    requires IsWord(w)
    requires rest == [] || IsSpace(rest[0])
    ensures WordLength(w + rest) == |w|
    decreases |w|
  {
    if |w| > 1 {
      assert (w + rest)[1..] == w[1..] + rest;
      WordLengthOfWord(w[1..], rest);
    } else {
      assert (w + rest)[1..] == rest;
    }
  }

  /** Splitting a space-separated line of words gives back the words. */
  lemma {:induction false} FieldsOfJoinWords(ws: seq<string>)
    requires forall i :: 0 <= i < |ws| ==> IsWord(ws[i])
    ensures Fields(JoinWords(ws)) == ws
    decreases |ws|
  {
    if ws == [] {
    } else {
      var w := ws[0];
      var rest := if |ws| == 1 then "" else " " + JoinWords(ws[1..]);
      var line := w + rest;
      assert JoinWords(ws) == line;
      WordLengthOfWord(w, rest);
      assert line[..|w|] == w;
      assert line[|w|..] == rest;
      assert Fields(line) == [w] + Fields(rest);
      if |ws| > 1 {
        assert rest[1..] == JoinWords(ws[1..]);
        FieldsOfJoinWords(ws[1..]);
      }
    }
  }

  /** Leading white space does not change the fields. */
  lemma {:induction false} FieldsSkipsLeadingSpace(pad: string, s: string)
    requires forall i :: 0 <= i < |pad| ==> IsSpace(pad[i])
    ensures Fields(pad + s) == Fields(s)
    decreases |pad|
  {
    if pad != [] {
      var t := pad + s;
      assert t[0] == pad[0] && IsSpace(t[0]);
      assert t[1..] == pad[1..] + s;
      assert Fields(t) == Fields(t[1..]);
      FieldsSkipsLeadingSpace(pad[1..], s);
    } else {
      assert pad + s == s;
    }
  }

  /** A string of white space alone has no fields, so trailing white space
      adds none. */
  lemma FieldsOfSpace(s: string)
    requires AllSpace(s)
    ensures Fields(s) == []
  {
    FieldsSkipsLeadingSpace(s, []);
    assert s + [] == s;
  }

  /** A word followed by a run of white space of any length: the word is the
      first field and the run separates it from the rest. */
  lemma FieldsWordThenSpace(w: string, sep: string, s: string)
    requires IsWord(w) && sep != []
    requires forall i :: 0 <= i < |sep| ==> IsSpace(sep[i])
    ensures Fields(w + sep + s) == [w] + Fields(s)
  {
    var rest := sep + s;
    var line := w + rest;
    assert w + sep + s == line;
    WordLengthOfWord(w, rest);
    assert line[..|w|] == w;
    assert line[|w|..] == rest;
    assert Fields(line) == [w] + Fields(rest);
    FieldsSkipsLeadingSpace(sep, s);
  }

  /** Word `i` of `ws` followed by the white space `seps[i]`. */
  function Spaced(ws: seq<string>, seps: seq<string>): string
    requires |ws| == |seps|
  {
    if ws == [] then "" else ws[0] + seps[0] + Spaced(ws[1..], seps[1..])
  }

  predicate AllSpace(s: string) {
    forall i :: 0 <= i < |s| ==> IsSpace(s[i])
  }

  /** A line laid out in columns: leading white space, then words separated
      by runs of white space of any length, then optional trailing white
      space. Its fields are exactly the words. */
  lemma {:induction false} FieldsOfSpaced(pad: string, ws: seq<string>, seps: seq<string>)
    requires |ws| == |seps| && AllSpace(pad)
    requires forall i :: 0 <= i < |ws| ==> IsWord(ws[i]) && AllSpace(seps[i])
    requires forall i :: 0 <= i < |seps| - 1 ==> seps[i] != []
    ensures Fields(pad + Spaced(ws, seps)) == ws
    decreases |ws|
  {
    FieldsSkipsLeadingSpace(pad, Spaced(ws, seps));
    if ws == [] {
      FieldsOfSpace(pad + "");
    } else if seps[0] == [] {
      assert Spaced(ws[1..], seps[1..]) == "";
      assert Spaced(ws, seps) == ws[0] + "";
      WordLengthOfWord(ws[0], "");
      assert Spaced(ws, seps)[|ws[0]|..] == "";
    } else {
      FieldsWordThenSpace(ws[0], seps[0], Spaced(ws[1..], seps[1..]));
      FieldsOfSpaced("", ws[1..], seps[1..]);
      assert "" + Spaced(ws[1..], seps[1..]) == Spaced(ws[1..], seps[1..]);
    }
  }

  function HasPrefix(s: string, prefix: string): bool {
    |prefix| <= |s| && s[..|prefix|] == prefix
  }

  /** Go's `strings.TrimPrefix`: `s` without one leading `prefix`, or `s`
      itself when it does not start with `prefix`. */
  function TrimPrefix(s: string, prefix: string): (r: string)
    ensures HasPrefix(s, prefix) ==> prefix + r == s
    ensures !HasPrefix(s, prefix) ==> r == s
  {
    if HasPrefix(s, prefix) then s[|prefix|..] else s
  }
}
