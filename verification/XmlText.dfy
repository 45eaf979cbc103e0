/** Text out of a document: a walk over XML tokens that counts how deep it is in what it collects and
    in what it skips, and a budget all the parts of a document draw on. */
module XmlText {
  import opened Wrappers

  /** The rules for one vocabulary, by element name: what stands inside an element of collect is text,
      whole subtrees of skip say nothing, and open and close hold the marks written as an element starts
      and ends. */
  datatype Rules = Rules(collect: set<string>, skip: set<string>, open: map<string, string>, close: map<string, string>)

  /** Comments, directives and instructions are no text and no element. */
  datatype Token = Start(name: string) | End(name: string) | Chars(text: string) | Other

  datatype Node = Element(name: string, children: seq<Node>) | Text(text: string) | Aside

  // --- the tree ---------------------------------------------------------------

  function Tokens(n: Node): seq<Token>
    decreases n, 1
  {
    match n
    case Element(name, children) => [Start(name)] + TokensOf(children) + [End(name)]
    case Text(text) => [Chars(text)]
    case Aside => [Other]
  }

  function TokensOf(ns: seq<Node>): seq<Token>
    decreases ns, 0
  {
    if ns == [] then [] else Tokens(ns[0]) + TokensOf(ns[1..])
  }

  function Mark(marks: map<string, string>, name: string): string {
    if name in marks then marks[name] else ""
  }

  /** The text of a tree: what stands inside a collecting element and outside every skipped subtree,
      between the marks of the elements outside them. */
  function Render(n: Node, rules: Rules, collecting: bool): string
    decreases n, 1
  {
    match n
    case Element(name, children) =>
      if name in rules.skip then ""
      else Mark(rules.open, name) + RenderAll(children, rules, collecting || name in rules.collect) + Mark(rules.close, name)
    case Text(text) => if collecting then text else ""
    case Aside => ""
  }

  function RenderAll(ns: seq<Node>, rules: Rules, collecting: bool): string
    decreases ns, 0
  {
    if ns == [] then "" else Render(ns[0], rules, collecting) + RenderAll(ns[1..], rules, collecting)
  }

  // --- the walk ---------------------------------------------------------------

  /** One token's text, and the counters after it. */
  function Step(token: Token, rules: Rules, collecting: nat, skipping: nat): (string, nat, nat) {
    match token
    case Start(name) =>
      if skipping > 0 || name in rules.skip then ("", collecting, skipping + 1)
      else (Mark(rules.open, name), if name in rules.collect then collecting + 1 else collecting, 0)
    case End(name) =>
      if skipping > 0 then ("", collecting, skipping - 1)
      else (Mark(rules.close, name), if name in rules.collect && collecting > 0 then collecting - 1 else collecting, 0)
    case Chars(text) => (if collecting > 0 && skipping == 0 then text else "", collecting, skipping)
    case Other => ("", collecting, skipping)
  }

  function Walk(tokens: seq<Token>, rules: Rules, collecting: nat, skipping: nat): string {
    if tokens == [] then ""
    else
      var (text, c, s) := Step(tokens[0], rules, collecting, skipping);
      text + Walk(tokens[1..], rules, c, s)
  }

  lemma WalkStep(token: Token, rest: seq<Token>, rules: Rules, collecting: nat, skipping: nat)
    ensures var (text, c, s) := Step(token, rules, collecting, skipping);
            Walk([token] + rest, rules, collecting, skipping) == text + Walk(rest, rules, c, s)
  {
    assert ([token] + rest)[0] == token && ([token] + rest)[1..] == rest;
  }

  lemma {:induction false} SkippedNodesSayNothing(n: Node, rest: seq<Token>, rules: Rules, collecting: nat, skipping: nat)
    requires skipping > 0
    ensures Walk(Tokens(n) + rest, rules, collecting, skipping) == Walk(rest, rules, collecting, skipping)
    decreases n, 1
  {
    match n
    case Element(name, children) =>
      var after := [End(name)] + rest;
      assert Tokens(n) + rest == [Start(name)] + (TokensOf(children) + after);
      WalkStep(Start(name), TokensOf(children) + after, rules, collecting, skipping);
      SkippedForestsSayNothing(children, after, rules, collecting, skipping + 1);
      WalkStep(End(name), rest, rules, collecting, skipping + 1);
    case Text(text) => WalkStep(Chars(text), rest, rules, collecting, skipping);
    case Aside => WalkStep(Other, rest, rules, collecting, skipping);
  }

  lemma {:induction false} SkippedForestsSayNothing(ns: seq<Node>, rest: seq<Token>, rules: Rules, collecting: nat, skipping: nat)
    requires skipping > 0
    ensures Walk(TokensOf(ns) + rest, rules, collecting, skipping) == Walk(rest, rules, collecting, skipping)
    decreases ns, 0
  {
    if ns == [] {
      assert TokensOf(ns) + rest == rest;
    } else {
      assert TokensOf(ns) + rest == Tokens(ns[0]) + (TokensOf(ns[1..]) + rest);
      SkippedNodesSayNothing(ns[0], TokensOf(ns[1..]) + rest, rules, collecting, skipping);
      SkippedForestsSayNothing(ns[1..], rest, rules, collecting, skipping);
    }
  }

  lemma ElementStarts(name: string, middle: seq<Token>, rules: Rules, collecting: nat)
    ensures var c := if name in rules.collect then collecting + 1 else collecting;
            Walk([Start(name)] + middle, rules, collecting, 0)
            == if name in rules.skip then Walk(middle, rules, collecting, 1)
               else Mark(rules.open, name) + Walk(middle, rules, c, 0)
  {
    WalkStep(Start(name), middle, rules, collecting, 0);
  }

  lemma ElementEnds(name: string, rest: seq<Token>, rules: Rules, collecting: nat)
    ensures var c := if name in rules.collect then collecting + 1 else collecting;
            Walk([End(name)] + rest, rules, c, 0) == Mark(rules.close, name) + Walk(rest, rules, collecting, 0)
    ensures Walk([End(name)] + rest, rules, collecting, 1) == Walk(rest, rules, collecting, 0)
  {
    WalkStep(End(name), rest, rules, if name in rules.collect then collecting + 1 else collecting, 0);
    WalkStep(End(name), rest, rules, collecting, 1);
  }

  lemma Regrouped(a: string, b: string, c: string, d: string)
    ensures a + (b + (c + d)) == (a + b + c) + d
  {
  }

  lemma {:induction false} NodesSayTheirText(n: Node, rest: seq<Token>, rules: Rules, collecting: nat)
    ensures Walk(Tokens(n) + rest, rules, collecting, 0) == Render(n, rules, collecting > 0) + Walk(rest, rules, collecting, 0)
    decreases n, 1
  {
    match n
    case Element(name, children) =>
      var after := [End(name)] + rest;
      assert Tokens(n) + rest == [Start(name)] + (TokensOf(children) + after);
      ElementStarts(name, TokensOf(children) + after, rules, collecting);
      ElementEnds(name, rest, rules, collecting);
      if name in rules.skip {
        SkippedForestsSayNothing(children, after, rules, collecting, 1);
      } else {
        var c := if name in rules.collect then collecting + 1 else collecting;
        ForestsSayTheirText(children, after, rules, c);
        Regrouped(Mark(rules.open, name), RenderAll(children, rules, c > 0), Mark(rules.close, name),
                  Walk(rest, rules, collecting, 0));
      }
    case Text(text) => WalkStep(Chars(text), rest, rules, collecting, 0);
    case Aside => WalkStep(Other, rest, rules, collecting, 0);
  }

  lemma {:induction false} ForestsSayTheirText(ns: seq<Node>, rest: seq<Token>, rules: Rules, collecting: nat)
    ensures Walk(TokensOf(ns) + rest, rules, collecting, 0) == RenderAll(ns, rules, collecting > 0) + Walk(rest, rules, collecting, 0)
    decreases ns, 0
  {
    if ns == [] {
      assert TokensOf(ns) + rest == rest;
    } else {
      assert TokensOf(ns) + rest == Tokens(ns[0]) + (TokensOf(ns[1..]) + rest);
      NodesSayTheirText(ns[0], TokensOf(ns[1..]) + rest, rules, collecting);
      ForestsSayTheirText(ns[1..], rest, rules, collecting);
    }
  }

  /** The two counters refine the recursive reading: on the tokens of any trees, by any rules, the walk
      says exactly the trees' text. */
  lemma TheWalkReadsTheTree(ns: seq<Node>, rules: Rules)
    ensures Walk(TokensOf(ns), rules, 0, 0) == RenderAll(ns, rules, false)
  {
    assert TokensOf(ns) + [] == TokensOf(ns);
    ForestsSayTheirText(ns, [], rules, 0);
  }

  // --- the vocabularies -------------------------------------------------------

  const DOCX := Rules({"t"}, {"pPr"}, map["tab" := "\t", "br" := "\n", "cr" := "\n"], map["p" := "\n"])
  const PPTX := Rules({"t"}, {}, map["br" := "\n"], map["p" := "\n"])
  const ODF := Rules({"p", "h"}, {"automatic-styles", "styles"}, map["s" := " ", "tab" := "\t", "line-break" := "\n"],
                     map["p" := "\n", "h" := "\n"])
  const SVG := Rules({"text", "title", "desc"}, {"script", "style"}, map[], map["text" := "\n", "title" := "\n", "desc" := "\n"])

  function Newlines(s: string): nat { multiset(s)['\n'] }

  /** The elements whose marks end a line: each once, and no other at all. */
  ghost predicate EndLines(rules: Rules, names: set<string>) {
    forall name :: Newlines(Mark(rules.open, name)) + Newlines(Mark(rules.close, name)) == if name in names then 1 else 0
  }

  lemma NewlinesOfMarks()
    ensures Newlines("") == 0 && Newlines("\t") == 0 && Newlines(" ") == 0 && Newlines("\n") == 1
  {
    assert multiset("") == multiset{} && multiset("\t") == multiset{'\t'} && multiset(" ") == multiset{' '};
    assert multiset("\n") == multiset{'\n'};
  }

  lemma DocumentsEndLines()
    ensures EndLines(DOCX, {"p", "br", "cr"})
  {
    NewlinesOfMarks();
    hide Newlines, EndLines;
    MarksEndLines(DOCX, {"p", "br", "cr"});
  }

  lemma SlidesEndLines()
    ensures EndLines(PPTX, {"p", "br"})
  {
    NewlinesOfMarks();
    hide Newlines, EndLines;
    MarksEndLines(PPTX, {"p", "br"});
  }

  lemma OpenDocumentsEndLines()
    ensures EndLines(ODF, {"p", "h", "line-break"})
  {
    NewlinesOfMarks();
    hide Newlines, EndLines;
    MarksEndLines(ODF, {"p", "h", "line-break"});
  }

  lemma DrawingsEndLines()
    ensures EndLines(SVG, {"text", "title", "desc"})
  {
    NewlinesOfMarks();
    hide Newlines, EndLines;
    MarksEndLines(SVG, {"text", "title", "desc"});
  }

  /** What ends a line of a document, of a slide, of an open document's text and of a drawing. */
  lemma WhatEndsALine()
    ensures EndLines(DOCX, {"p", "br", "cr"}) && EndLines(PPTX, {"p", "br"})
    ensures EndLines(ODF, {"p", "h", "line-break"}) && EndLines(SVG, {"text", "title", "desc"})
  {
    hide EndLines;
    DocumentsEndLines();
    SlidesEndLines();
    OpenDocumentsEndLines();
    DrawingsEndLines();
  }

  lemma MarksEndLines(rules: Rules, names: set<string>)
    requires Newlines("") == 0
    requires forall name <- rules.open :: Newlines(rules.open[name]) == (if name in names then 1 else 0)
    requires forall name <- rules.close :: Newlines(rules.close[name]) == (if name in names then 1 else 0)
    requires forall name <- rules.open :: name in rules.close ==> name !in names
    requires forall name <- names :: name in rules.open || name in rules.close
    ensures EndLines(rules, names)
  {
    hide Newlines;
  }

  /** How many elements of these names stand outside every skipped subtree. */
  function Lines(n: Node, rules: Rules, names: set<string>): nat
    decreases n, 1
  {
    match n
    case Element(name, children) =>
      if name in rules.skip then 0 else (if name in names then 1 else 0) + LinesOf(children, rules, names)
    case _ => 0
  }

  function LinesOf(ns: seq<Node>, rules: Rules, names: set<string>): nat
    decreases ns, 0
  {
    if ns == [] then 0 else Lines(ns[0], rules, names) + LinesOf(ns[1..], rules, names)
  }

  /** No text of a tree breaks a line itself. */
  predicate Unbroken(n: Node)
    decreases n, 1
  {
    match n
    case Element(_, children) => AllUnbroken(children)
    case Text(text) => Newlines(text) == 0
    case Aside => true
  }

  predicate AllUnbroken(ns: seq<Node>)
    decreases ns, 0
  {
    ns == [] || (Unbroken(ns[0]) && AllUnbroken(ns[1..]))
  }

  lemma {:induction false} OneLineForEach(n: Node, rules: Rules, names: set<string>, collecting: bool)
    requires EndLines(rules, names) && Unbroken(n)
    ensures Newlines(Render(n, rules, collecting)) == Lines(n, rules, names)
    decreases n, 1
  {
    match n
    case Element(name, children) =>
      if name !in rules.skip {
        OneLineForEachOf(children, rules, names, collecting || name in rules.collect);
        assert Newlines(Mark(rules.open, name)) + Newlines(Mark(rules.close, name)) == if name in names then 1 else 0;
      }
    case _ =>
  }

  /** A text extracted has a line for each paragraph and break outside what is skipped, and no other. */
  lemma {:induction false} OneLineForEachOf(ns: seq<Node>, rules: Rules, names: set<string>, collecting: bool)
    requires EndLines(rules, names) && AllUnbroken(ns)
    ensures Newlines(RenderAll(ns, rules, collecting)) == LinesOf(ns, rules, names)
    decreases ns, 0
  {
    if ns != [] {
      OneLineForEach(ns[0], rules, names, collecting);
      OneLineForEachOf(ns[1..], rules, names, collecting);
    }
  }

  // --- into a bounded buffer --------------------------------------------------

  class TextOut {
    var b: string
    const max: int

    constructor (max: int)
      ensures b == "" && this.max == max
    {
      b := "";
      this.max := max;
    }

    /** The text is added whole, or refused for passing the limit. */
    method Write(s: string) returns (ok: bool)
      modifies this
      ensures ok == (old(|b|) + |s| <= max)
      ensures b == if ok then old(b) + s else old(b)
    {
      if |b| + |s| > max {
        return false;
      }
      b := b + s;
      return true;
    }
  }

  /** The walk over a document's tokens: refused exactly when what it says would pass the limit. */
  method WalkTokens(tokens: seq<Token>, rules: Rules, out: TextOut) returns (ok: bool)
    requires |out.b| <= out.max
    modifies out
    ensures ok == (old(|out.b|) + |Walk(tokens, rules, 0, 0)| <= out.max)
    ensures ok ==> out.b == old(out.b) + Walk(tokens, rules, 0, 0)
    ensures |out.b| <= out.max
  {
    var collecting, skipping := 0, 0;
    ghost var goal := out.b + Walk(tokens, rules, 0, 0);
    for i := 0 to |tokens|
      invariant collecting >= 0 && skipping >= 0 && |out.b| <= out.max
      invariant goal == out.b + Walk(tokens[i..], rules, collecting, skipping)
    {
      assert tokens[i..][0] == tokens[i] && tokens[i..][1..] == tokens[i + 1..];
      ghost var (text, c, s) := Step(tokens[i], rules, collecting, skipping);
      assert goal == (out.b + text) + Walk(tokens[i + 1..], rules, c, s);
      match tokens[i] {
        case Start(name) =>
          if skipping > 0 || name in rules.skip {
            skipping := skipping + 1;
            continue;
          }
          if name in rules.collect {
            collecting := collecting + 1;
          }
          if name in rules.open {
            var written := out.Write(rules.open[name]);
            if !written { return false; }
          }
        case End(name) =>
          if skipping > 0 {
            skipping := skipping - 1;
            continue;
          }
          if name in rules.collect && collecting > 0 {
            collecting := collecting - 1;
          }
          if name in rules.close {
            var written := out.Write(rules.close[name]);
            if !written { return false; }
          }
        case Chars(words) =>
          if collecting > 0 && skipping == 0 {
            var written := out.Write(words);
            if !written { return false; }
          }
        case Other =>
      }
    }
    return true;
  }

  /** A document of any trees, read by any rules: its text, or a refusal exactly when the text passes
      the limit. */
  method ReadDocument(ns: seq<Node>, rules: Rules, max: nat) returns (text: Option<string>)
    ensures text == if |RenderAll(ns, rules, false)| <= max then Some(RenderAll(ns, rules, false)) else None
  {
    var out := new TextOut(max);
    TheWalkReadsTheTree(ns, rules);
    var ok := WalkTokens(TokensOf(ns), rules, out);
    assert "" + RenderAll(ns, rules, false) == RenderAll(ns, rules, false);
    return if ok then Some(out.b) else None;
  }

  // --- slides -----------------------------------------------------------------

  /** The text of several parts, each closed by a line of its own. */
  function SlidesText(slides: seq<seq<Node>>, rules: Rules): string {
    if slides == [] then ""
    else SlidesText(slides[..|slides| - 1], rules) + RenderAll(slides[|slides| - 1], rules, false) + "\n"
  }

  function SlidesLines(slides: seq<seq<Node>>, rules: Rules, names: set<string>): nat {
    if slides == [] then 0
    else SlidesLines(slides[..|slides| - 1], rules, names) + LinesOf(slides[|slides| - 1], rules, names) + 1
  }

  /** The slides read so far are never longer than all of them. */
  lemma {:induction false} FewerSlidesAreNoLonger(slides: seq<seq<Node>>, rules: Rules, k: nat)
    requires k <= |slides|
    ensures |SlidesText(slides[..k], rules)| <= |SlidesText(slides, rules)|
    decreases |slides|
  {
    if k == |slides| {
      assert slides[..k] == slides;
    } else {
      var init := slides[..|slides| - 1];
      assert init[..k] == slides[..k];
      FewerSlidesAreNoLonger(init, rules, k);
    }
  }

  lemma OneMoreSlide(slides: seq<seq<Node>>, rules: Rules, i: nat)
    requires i < |slides|
    ensures SlidesText(slides[..i + 1], rules) == SlidesText(slides[..i], rules) + RenderAll(slides[i], rules, false) + "\n"
  {
    assert slides[..i + 1][..i] == slides[..i];
  }

  /** The slides of a presentation, in order, into one buffer: their text, or a refusal exactly when all of it
      together passes the limit. */
  method ReadSlides(slides: seq<seq<Node>>, rules: Rules, max: nat) returns (text: Option<string>)
    ensures text == if |SlidesText(slides, rules)| <= max then Some(SlidesText(slides, rules)) else None
  {
    var out := new TextOut(max);
    for i := 0 to |slides|
      invariant fresh(out) && out.max == max
      invariant out.b == SlidesText(slides[..i], rules) && |out.b| <= max
    {
      TheWalkReadsTheTree(slides[i], rules);
      OneMoreSlide(slides, rules, i);
      FewerSlidesAreNoLonger(slides, rules, i + 1);
      var walked := WalkTokens(TokensOf(slides[i]), rules, out);
      if !walked { return None; }
      var written := out.Write("\n");
      if !written { return None; }
    }
    assert slides[..|slides|] == slides;
    return Some(out.b);
  }

  /** Each slide has a line for each paragraph and break, and one more that ends it. */
  lemma {:induction false} OneLineForEachOfTheSlides(slides: seq<seq<Node>>, rules: Rules, names: set<string>)
    requires EndLines(rules, names) && forall slide <- slides :: AllUnbroken(slide)
    ensures Newlines(SlidesText(slides, rules)) == SlidesLines(slides, rules, names)
  {
    NewlinesOfMarks();
    if slides != [] {
      var init, last := slides[..|slides| - 1], slides[|slides| - 1];
      OneLineForEachOfTheSlides(init, rules, names);
      OneLineForEachOf(last, rules, names, false);
      NewlinesAdd(SlidesText(init, rules), RenderAll(last, rules, false), "\n");
    }
  }

  lemma NewlinesAdd(a: string, b: string, c: string)
    ensures Newlines(a + b + c) == Newlines(a) + Newlines(b) + Newlines(c)
  {
  }
}
