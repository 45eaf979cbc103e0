/** Styles: what a page is drawn with, the words in it, and translations of those words. */
module Styles {
  import opened Wrappers
  import opened Text

  /** Which addresses a link may have: parsing an address is not part of this model. */
  type AddressRule = string -> bool

  const EARFUL := "earful"
  const THANKS_IMAGE := "image"

  /** A picture, named by a hash, with its width and height. */
  datatype Picture = NoPicture | Picture(sha256: string, width: int, height: int) {
    predicate Usable() {
      NoPicture? ||
      (|sha256| == 64 && (forall c <- sha256 :: '0' <= c <= '9' || 'a' <= c <= 'f') && width > 0 && height > 0)
    }
  }

  datatype Link = Link(text: string, url: string)

  datatype Header = Header(name: string, tagline: string, links: seq<Link>, banner: Picture, logo: Picture, logoAlt: string) {
    predicate IsZero() {
      name == "" && tagline == "" && links == [] && banner.NoPicture? && logo.NoPicture?
    }

    /** Alternative text left behind by a logo since removed is shown to nobody. */
    function ShownLogoAlt(): string {
      if logo.NoPicture? then "" else logoAlt
    }

    /** Nobody could tell two headers apart on a page. */
    predicate Draws(other: Header) {
      && name == other.name && tagline == other.tagline && links == other.links
      && banner == other.banner && logo == other.logo && ShownLogoAlt() == other.ShownLogoAlt()
    }

    function Validate(addresses: AddressRule): Option<Error> {
      if |name| > 80 then Some(InStyle(AtHeaderName, 0, Limit(StyleName)))
      else if |tagline| > 280 then Some(InStyle(AtHeaderText, 0, Limit(StyleTagline)))
      else if ValidateLinks(AtHeaderLinks, links, addresses).Some? then ValidateLinks(AtHeaderLinks, links, addresses)
      else if !banner.Usable() then Some(InStyle(AtBanner, 0, StyleImageUnusable))
      else if !logo.Usable() then Some(InStyle(AtLogo, 0, StyleImageUnusable))
      else if |logoAlt| > 120 then Some(InStyle(AtLogoAlt, 0, Limit(StyleLogoAltLen)))
      else if !logo.NoPicture? && logoAlt == "" then Some(InStyle(AtLogoAlt, 0, LogoAltMissing))
      else None
    }
  }

  datatype Footer = Footer(text: string, links: seq<Link>) {
    predicate IsZero() { text == "" && links == [] }

    predicate Draws(other: Footer) { text == other.text && links == other.links }

    function Validate(addresses: AddressRule): Option<Error> {
      if |text| > 280 then Some(InStyle(AtFooterText, 0, Limit(StyleFooterLen)))
      else ValidateLinks(AtFooterLinks, links, addresses)
    }
  }

  /** What the thank you page shows above its message; picture == "" is the owl. */
  datatype Thanks = Thanks(picture: string, image: Picture, alt: string) {
    predicate IsZero() { picture == "" && image.NoPicture? && alt == "" }

    /** The creator's own picture is dropped where the choice is another one. */
    function Settle(): Thanks {
      if picture != THANKS_IMAGE then Thanks(picture, NoPicture, "") else this
    }

    predicate Settled() { Settle() == this }

    predicate Draws(other: Thanks) { Settle() == other.Settle() }

    function Validate(): Option<Error> {
      if picture !in {"", "check", "envelope", "confetti", THANKS_IMAGE, "none"} then
        Some(InStyle(AtThanksPicture, 0, UnknownThanksPicture))
      else if !image.Usable() then Some(InStyle(AtThanksImage, 0, StyleImageUnusable))
      else if |alt| > 120 then Some(InStyle(AtThanksAlt, 0, Limit(StyleThanksAltLen)))
      else if picture == THANKS_IMAGE && image.NoPicture? then Some(InStyle(AtThanksImage, 0, ThanksImageMissing))
      else if !image.NoPicture? && alt == "" then Some(InStyle(AtThanksAlt, 0, ThanksImageAltMissing))
      else None
    }
  }

  const NO_HEADER := Header("", "", [], NoPicture, NoPicture, "")
  const NO_FOOTER := Footer("", [])
  const OWL := Thanks("", NoPicture, "")
  const NO_STYLE := Style("", NO_HEADER, NO_FOOTER, OWL)

  predicate SameTheme(a: string, b: string) {
    (if a == EARFUL then "" else a) == (if b == EARFUL then "" else b)
  }

  function ValidateLink(link: Link, addresses: AddressRule): Option<Error> {
    if |link.text| > 60 then Some(Limit(ThanksLabelLen))
    else if link.url == "" then Some(LinkAddressMissing)
    else if link.text == "" then Some(LinkLabelMissing)
    else if !addresses(link.url) then Some(LinkAddressRefused)
    else None
  }

  function FirstBadLink(part: StylePart, links: seq<Link>, at: nat, addresses: AddressRule): (e: Option<Error>)
    requires at <= |links|
    ensures e == None <==> forall i :: at <= i < |links| ==> ValidateLink(links[i], addresses) == None
    decreases |links| - at
  {
    if at == |links| then None
    else match ValidateLink(links[at], addresses)
      case Some(why) => Some(InStyle(part, at + 1, why))
      case None => FirstBadLink(part, links, at + 1, addresses)
  }

  function ValidateLinks(part: StylePart, links: seq<Link>, addresses: AddressRule): Option<Error> {
    if |links| > 3 then Some(InStyle(part, 0, Limit(StyleLinkCount))) else FirstBadLink(part, links, 0, addresses)
  }

  /** Some of the four parts a style is made of. */
  datatype Parts = Parts(theme: bool, header: bool, footer: bool, thanks: bool) {
    predicate IsZero() { this == NO_PARTS }

    predicate Within(of: Parts) {
      (theme ==> of.theme) && (header ==> of.header) && (footer ==> of.footer) && (thanks ==> of.thanks)
    }

    function Union(other: Parts): Parts {
      Parts(theme || other.theme, header || other.header, footer || other.footer, thanks || other.thanks)
    }

    /** Whether the words of one part belong to these parts. */
    predicate Has(p: WordPart) {
      match p case HeaderWords => header case FooterWords => footer case ThanksWords => thanks
    }
  }

  const NO_PARTS := Parts(false, false, false, false)
  const ALL_PARTS := Parts(true, true, true, true)

  /** The parts that have words; a theme has none. */
  datatype WordPart = HeaderWords | FooterWords | ThanksWords

  function Just(p: WordPart): Parts {
    Parts(false, p.HeaderWords?, p.FooterWords?, p.ThanksWords?)
  }

  datatype Style = Style(theme: string, header: Header, footer: Footer, thanks: Thanks) {
    predicate IsZero() { theme == "" && header.IsZero() && footer.IsZero() && thanks.IsZero() }

    /** Nobody could tell the pages of two styles apart. */
    predicate Draws(other: Style) {
      && SameTheme(theme, other.theme) && header.Draws(other.header)
      && footer.Draws(other.footer) && thanks.Draws(other.thanks)
    }

    function Validate(addresses: AddressRule): Option<Error> {
      if theme !in {"", "slate", "ocean", "forest"} then Some(InStyle(AtTheme, 0, UnknownTheme))
      else if header.Validate(addresses).Some? then header.Validate(addresses)
      else if footer.Validate(addresses).Some? then footer.Validate(addresses)
      else thanks.Validate()
    }

    function Words(): StyleWords {
      StyleWords(header.tagline, header.ShownLogoAlt(), Labels(header.links), footer.text, Labels(footer.links), ThanksAlt())
    }

    function ThanksAlt(): string {
      if thanks.image.NoPicture? then "" else thanks.alt
    }

    /** The style with other words; where those have none, its own stay. */
    function WithWords(w: StyleWords): Style {
      Style(theme,
            header.(tagline := if w.tagline != "" then w.tagline else header.tagline,
                    logoAlt := if w.logoAlt != "" && !header.logo.NoPicture? then w.logoAlt else header.logoAlt,
                    links := Relabel(header.links, w.headerLinks)),
            Footer(if w.footerText != "" then w.footerText else footer.text, Relabel(footer.links, w.footerLinks)),
            thanks.(alt := if w.thanksAlt != "" && !thanks.image.NoPicture? then w.thanksAlt else thanks.alt))
    }
  }

  function Labels(links: seq<Link>): (labels: seq<string>)
    ensures |labels| == |links|
  {
    seq(|links|, i requires 0 <= i < |links| => links[i].text)
  }

  function Relabel(links: seq<Link>, labels: seq<string>): (out: seq<Link>)
    ensures |out| == |links|
  {
    seq(|links|, i requires 0 <= i < |links| =>
      if i < |labels| && labels[i] != "" then links[i].(text := labels[i]) else links[i])
  }

  method RelabelLinks(links: seq<Link>, labels: seq<string>) returns (out: seq<Link>)
    ensures out == Relabel(links, labels)
    ensures |out| == |links|
    ensures forall i :: 0 <= i < |links| ==> out[i].url == links[i].url
    ensures forall i :: 0 <= i < |links| && i < |labels| && labels[i] != "" ==> out[i].text == labels[i]
  {
    if |links| == 0 {
      return links;
    }
    out := links;
    for i := 0 to |out|
      invariant |out| == |links|
      invariant forall k :: 0 <= k < i ==> out[k] == Relabel(links, labels)[k]
      invariant forall k :: i <= k < |links| ==> out[k] == links[k]
    {
      if i < |labels| && labels[i] != "" {
        out := out[i := out[i].(text := labels[i])];
      }
    }
  }

  function StyleDiffers(a: Style, b: Style): Parts {
    Parts(!SameTheme(a.theme, b.theme), !a.header.Draws(b.header), !a.footer.Draws(b.footer), !a.thanks.Draws(b.thanks))
  }

  /** Everything in a style that a translator would be given. */
  datatype StyleWords = StyleWords(tagline: string, logoAlt: string, headerLinks: seq<string>, footerText: string, footerLinks: seq<string>, thanksAlt: string) {
    predicate IsZero() { this == NO_WORDS }

    /** These words with those of all other parts left out. */
    function Only(p: Parts): StyleWords {
      StyleWords(if p.header then tagline else "", if p.header then logoAlt else "", if p.header then headerLinks else [],
            if p.footer then footerText else "", if p.footer then footerLinks else [],
            if p.thanks then thanksAlt else "")
    }

    /** Some parts' words from other, the rest from here. */
    function With(other: StyleWords, p: Parts): StyleWords {
      StyleWords(if p.header then other.tagline else tagline, if p.header then other.logoAlt else logoAlt,
            if p.header then other.headerLinks else headerLinks,
            if p.footer then other.footerText else footerText, if p.footer then other.footerLinks else footerLinks,
            if p.thanks then other.thanksAlt else thanksAlt)
    }

    /** Wherever source says something, so do these words. */
    predicate Covers(source: StyleWords) {
      && (source.tagline != "" ==> tagline != "")
      && (source.footerText != "" ==> footerText != "")
      && (source.logoAlt != "" ==> logoAlt != "")
      && (source.thanksAlt != "" ==> thanksAlt != "")
      && LabelsCover(headerLinks, source.headerLinks)
      && LabelsCover(footerLinks, source.footerLinks)
    }

    /** Wherever source says nothing, neither do these words. */
    predicate Fits(source: StyleWords) {
      && (source.tagline == "" ==> tagline == "")
      && (source.footerText == "" ==> footerText == "")
      && (source.logoAlt == "" ==> logoAlt == "")
      && (source.thanksAlt == "" ==> thanksAlt == "")
      && |headerLinks| == |source.headerLinks|
      && |footerLinks| == |source.footerLinks|
    }
  }

  const NO_WORDS := StyleWords("", "", [], "", [], "")

  predicate LabelsCover(labels: seq<string>, source: seq<string>) {
    |labels| == |source| && "" !in labels
  }

  /** A translation of a style's words, with what it translates. */
  datatype LocalizedStyle = LocalizedStyle(words: StyleWords, reviewed: bool, source: StyleWords)

  function FitLabels(labels: seq<string>, n: nat): (out: seq<string>)
    ensures |out| == n
  {
    seq(n, i requires 0 <= i < n => if i < |labels| then TrimSpace(labels[i]) else "")
  }

  method FitLabelsTo(labels: seq<string>, n: nat) returns (out: seq<string>)
    ensures out == FitLabels(labels, n)
    ensures |out| == n && forall i :: 0 <= i < n ==> out[i] == if i < |labels| then TrimSpace(labels[i]) else ""
  {
    if n == 0 {
      return [];
    }
    out := seq(n, _ => "");
    for i := 0 to n
      invariant |out| == n
      invariant forall k :: 0 <= k < i ==> out[k] == FitLabels(labels, n)[k]
      invariant forall k :: i <= k < n ==> out[k] == ""
    {
      if i < |labels| {
        out := out[i := TrimSpace(labels[i])];
      }
    }
  }

  /** Words as a translation stores them: trimmed, as many labels as source has, and nothing where source
      has nothing. Words past a limit are refused. */
  function NewLocalizedStyle(source: StyleWords, words: StyleWords, reviewed: bool): (r: Result<LocalizedStyle>)
    ensures r.Ok? ==> r.value.words.Fits(source) && r.value.source == source && r.value.reviewed == reviewed
  {
    var t := StyleWords(
               if source.tagline == "" then "" else NormalizeMessage(words.tagline),
               if source.logoAlt == "" then "" else OneLine(words.logoAlt),
               FitLabels(words.headerLinks, |source.headerLinks|),
               if source.footerText == "" then "" else NormalizeMessage(words.footerText),
               FitLabels(words.footerLinks, |source.footerLinks|),
               if source.thanksAlt == "" then "" else OneLine(words.thanksAlt));
    if |t.logoAlt| > 120 then Err(InStyle(AtLogoAlt, 0, Limit(StyleLogoAltLen)))
    else if |t.thanksAlt| > 120 then Err(InStyle(AtThanksAlt, 0, Limit(StyleThanksAltLen)))
    else if |t.tagline| > 280 then Err(InStyle(AtHeaderText, 0, Limit(StyleTagline)))
    else if |t.footerText| > 280 then Err(InStyle(AtFooterText, 0, Limit(StyleFooterLen)))
    else if exists l <- t.headerLinks + t.footerLinks :: |l| > 60 then Err(Limit(ThanksLabelLen))
    else Ok(LocalizedStyle(t, reviewed, source))
  }

  // --- what the parts of a set of words amount to -----------------------------

  /** Words are the words of their parts: nothing belongs to no part, or to two. */
  lemma WordsArePartwise(v: StyleWords, w: StyleWords, p: Parts)
    ensures v.Only(p) == w.Only(p) <==> forall q: WordPart :: p.Has(q) ==> v.Only(Just(q)) == w.Only(Just(q))
  {
    if forall q: WordPart :: p.Has(q) ==> v.Only(Just(q)) == w.Only(Just(q)) {
      assert p.Has(HeaderWords) ==> v.Only(Just(HeaderWords)) == w.Only(Just(HeaderWords));
      assert p.Has(FooterWords) ==> v.Only(Just(FooterWords)) == w.Only(Just(FooterWords));
      assert p.Has(ThanksWords) ==> v.Only(Just(ThanksWords)) == w.Only(Just(ThanksWords));
    }
    if v.Only(p) == w.Only(p) {
      forall q: WordPart | p.Has(q) ensures v.Only(Just(q)) == w.Only(Just(q)) {
        assert v.Only(p).Only(Just(q)) == v.Only(Just(q));
        assert w.Only(p).Only(Just(q)) == w.Only(Just(q));
      }
    }
  }

  /** Covering is decided part by part too. */
  lemma CoversIsPartwise(w: StyleWords, source: StyleWords, p: Parts)
    ensures w.Only(p).Covers(source.Only(p))
       <==> forall q: WordPart :: p.Has(q) ==> w.Only(Just(q)).Covers(source.Only(Just(q)))
  {
    if forall q: WordPart :: p.Has(q) ==> w.Only(Just(q)).Covers(source.Only(Just(q))) {
      assert p.Has(HeaderWords) ==> w.Only(Just(HeaderWords)).Covers(source.Only(Just(HeaderWords)));
      assert p.Has(FooterWords) ==> w.Only(Just(FooterWords)).Covers(source.Only(Just(FooterWords)));
      assert p.Has(ThanksWords) ==> w.Only(Just(ThanksWords)).Covers(source.Only(Just(ThanksWords)));
    }
  }

  /** Drawing alike is an equivalence, and of settled styles the words follow it. */
  lemma DrawingAlikeIsAnEquivalence(a: Style, b: Style, c: Style)
    ensures a.Draws(a)
    ensures a.Draws(b) <==> b.Draws(a)
    ensures a.Draws(b) && b.Draws(c) ==> a.Draws(c)
    ensures StyleDiffers(a, b).IsZero() <==> a.Draws(b)
    ensures a.Draws(b) && a.thanks.Settled() && b.thanks.Settled() ==> a.Words() == b.Words()
  {
  }

  /** On unsettled styles drawing alike says nothing of the words: a picture that another choice has
      replaced is not drawn, and its text still counts as a word. */
  lemma UnsettledStylesDrawAlikeWithOtherWords(left: Picture, alt: string)
    requires !left.NoPicture? && alt != ""
    ensures exists a: Style, b: Style :: a.Draws(b) && a.Words() != b.Words()
  {
    var a, b := NO_STYLE.(thanks := Thanks("check", left, alt)), NO_STYLE.(thanks := Thanks("check", NoPicture, ""));
    assert a.Draws(b) && a.Words().thanksAlt != b.Words().thanksAlt;
  }

  ghost predicate EveryLinkLabelled(s: Style) {
    (forall link <- s.header.links :: link.text != "") && (forall link <- s.footer.links :: link.text != "")
  }

  lemma ValidStyleLabelsItsLinks(s: Style, addresses: AddressRule)
    requires s.Validate(addresses) == None
    ensures EveryLinkLabelled(s)
  {
  }

  lemma LabelsOfRelabelled(links: seq<Link>, labels: seq<string>)
    requires LabelsCover(labels, Labels(links))
    ensures Labels(Relabel(links, labels)) == labels
    ensures forall i :: 0 <= i < |links| ==> Relabel(links, labels)[i].url == links[i].url
  {
  }

  /** A style worded by a translation that covers its words and fits them shows exactly the
      translation, with a word precisely where the original has one and everything else kept. */
  lemma WordedStyleShowsTheTranslation(s: Style, w: StyleWords)
    requires w.Covers(s.Words()) && w.Fits(s.Words())
    ensures var t := s.WithWords(w);
      && t.Words() == w
      && t.theme == s.theme && t.header.name == s.header.name
      && t.header.banner == s.header.banner && t.header.logo == s.header.logo
      && t.thanks.picture == s.thanks.picture && t.thanks.image == s.thanks.image
      && |t.header.links| == |s.header.links| && |t.footer.links| == |s.footer.links|
      && (forall i :: 0 <= i < |s.header.links| ==> t.header.links[i].url == s.header.links[i].url)
      && (forall i :: 0 <= i < |s.footer.links| ==> t.footer.links[i].url == s.footer.links[i].url)
  {
    LabelsOfRelabelled(s.header.links, w.headerLinks);
    LabelsOfRelabelled(s.footer.links, w.footerLinks);
  }
}
