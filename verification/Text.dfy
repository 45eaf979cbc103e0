/** The little the survey code does to the text a creator types: trimming, making line endings
    uniform, folding a line to single spaces, and putting language codes in order. */
module Text {

  /** White space as the Go library counts it. */
  predicate IsSpace(c: char) {
    c in {'\t', '\n', '\r', ' ', '\U{0b}', '\U{0c}', '\U{85}', '\U{a0}', '\U{1680}', '\U{2028}', '\U{2029}', '\U{202f}', '\U{205f}', '\U{3000}'}
    || '\U{2000}' <= c <= '\U{200a}'
  }

  function TrimLeft(s: string): string {
    if s != "" && IsSpace(s[0]) then TrimLeft(s[1..]) else s
  }

  function TrimRight(s: string): string {
    if s != "" && IsSpace(s[|s| - 1]) then TrimRight(s[..|s| - 1]) else s
  }

  function TrimSpace(s: string): string {
    TrimRight(TrimLeft(s))
  }

  function UniformLines(s: string): string {
    if s == "" then ""
    else if |s| >= 2 && s[0] == '\r' && s[1] == '\n' then "\n" + UniformLines(s[2..])
    else if s[0] == '\r' then "\n" + UniformLines(s[1..])
    else [s[0]] + UniformLines(s[1..])
  }

  /** A message of several lines: line endings uniform, the whole trimmed. */
  function NormalizeMessage(s: string): string {
    TrimSpace(UniformLines(s))
  }

  /** Every run of white space as one space; used on an already trimmed line. */
  function SingleSpaces(s: string): string {
    if s == "" then ""
    else if IsSpace(s[0]) then
      if |s| >= 2 && IsSpace(s[1]) then SingleSpaces(s[1..]) else " " + SingleSpaces(s[1..])
    else [s[0]] + SingleSpaces(s[1..])
  }

  /** The words of a line joined by single spaces. */
  function OneLine(s: string): string {
    SingleSpaces(TrimSpace(s))
  }

  /** Alphabetical order of codes, the order languages are gone through in. */
  predicate AtMost(a: string, b: string) {
    a == "" || (b != "" && (a[0] < b[0] || (a[0] == b[0] && AtMost(a[1..], b[1..]))))
  }

  lemma AtMostTotal(a: string, b: string)
    ensures AtMost(a, b) || AtMost(b, a)
  {
  }

  lemma AtMostAntisymmetric(a: string, b: string)
    requires AtMost(a, b) && AtMost(b, a)
    ensures a == b
  {
    if a != "" {
      AtMostAntisymmetric(a[1..], b[1..]);
      assert a == [a[0]] + a[1..] && b == [b[0]] + b[1..];
    }
  }

  lemma AtMostTransitive(a: string, b: string, c: string)
    requires AtMost(a, b) && AtMost(b, c)
    ensures AtMost(a, c)
  {
  }

  predicate IsFirst(code: string, codes: set<string>) {
    code in codes && forall c <- codes :: AtMost(code, c)
  }

  /** A finite set of codes has exactly one that comes first. */
  lemma {:induction false} FirstExists(codes: set<string>) returns (first: string)
    requires codes != {}
    ensures IsFirst(first, codes)
    ensures forall other :: IsFirst(other, codes) ==> other == first
    decreases |codes|
  {
    first :| first in codes;
    if codes - {first} != {} {
      var next := FirstExists(codes - {first});
      if AtMost(first, next) {
        forall c <- codes ensures AtMost(first, c) {
          if c == first { AtMostTotal(c, c); } else { AtMostTransitive(first, next, c); }
        }
      } else {
        AtMostTotal(first, next);
        first := next;
      }
    } else {
      AtMostTotal(first, first);
    }
    assert IsFirst(first, codes);
    forall other | IsFirst(other, codes) ensures other == first {
      assert other in codes && first in codes;
      AtMostAntisymmetric(other, first);
    }
  }

  function First(codes: set<string>): (first: string)
    requires codes != {}
    ensures IsFirst(first, codes)
  {
    assert (exists f :: IsFirst(f, codes)) && (forall f, g :: IsFirst(f, codes) && IsFirst(g, codes) ==> f == g) by {
      var f := FirstExists(codes);
    }
    var f :| f in codes && IsFirst(f, codes);
    f
  }

  ghost predicate InOrder(codes: seq<string>) {
    forall i, j :: 0 <= i < j < |codes| ==> AtMost(codes[i], codes[j]) && codes[i] != codes[j]
  }

  /** The codes in alphabetical order, each once. */
  method CodesInOrder(codes: set<string>) returns (list: seq<string>)
    ensures InOrder(list)
    ensures forall c :: c in list <==> c in codes
  {
    list := [];
    var left := codes;
    while left != {}
      invariant left <= codes && forall c :: c in list <==> c in codes - left
      invariant InOrder(list)
      invariant forall c, d :: c in list && d in left ==> AtMost(c, d)
      decreases left
    {
      var first := First(left);
      forall k | 0 <= k < |list| ensures AtMost(list[k], first) && list[k] != first {
        assert list[k] in list;
      }
      list := list + [first];
      left := left - {first};
    }
  }

  /** Going through codes in order, the first that is wanted is the first of those wanted. */
  lemma FirstMetIsFirst(list: seq<string>, i: nat, wanted: set<string>)
    requires InOrder(list) && i < |list| && list[i] in wanted
    requires forall c <- wanted :: c in list
    requires forall j :: 0 <= j < i ==> list[j] !in wanted
    ensures First(wanted) == list[i]
  {
    forall c <- wanted ensures AtMost(list[i], c) {
      AtMostTotal(c, c);
    }
    AtMostAntisymmetric(First(wanted), list[i]);
  }
}
