/** The working copy of a survey: its questions, thank you page, style and translations, how its
    style relates to its account's, and the gate its translations must pass to be published. */
module Drafts {
  import opened Wrappers
  import opened Text
  import opened Styles
  import opened Questions

  datatype ThankYou = ThankYou(message: string, linkLabel: string, linkURL: string) {
    function Validate(addresses: AddressRule): Option<Error> {
      if |message| > 1000 then Some(Limit(ThanksMessageLen))
      else if |linkLabel| > 60 then Some(Limit(ThanksLabelLen))
      else if linkURL == "" && linkLabel == "" then None
      else if linkURL == "" then Some(LinkAddressMissing)
      else if linkLabel == "" then Some(LinkLabelMissing)
      else if !addresses(linkURL) then Some(LinkAddressRefused)
      else None
    }
  }

  /** The rules the model takes as given: which questions and which addresses are accepted. */
  datatype Rules = Rules(questions: QuestionRule, addresses: AddressRule)

  datatype LocalizedQuestion = LocalizedQuestion(text: string, options: seq<string>, reviewed: bool, sourceText: string)

  datatype LocalizedThanks =
    LocalizedThanks(message: string, linkLabel: string, reviewed: bool, sourceMessage: string, sourceLinkLabel: string)

  /** A draft's translations into one language, as far as they go. */
  datatype Localization =
    Localization(questions: map<string, LocalizedQuestion>, thanks: Option<LocalizedThanks>, style: Option<LocalizedStyle>)

  /** Which parts a survey has for its own, and which it leaves out. */
  datatype StyleChoice = StyleChoice(own: Parts, noHeader: bool, noFooter: bool)

  const FOLLOWS_ALL := StyleChoice(NO_PARTS, false, false)
  const EMPTY_DRAFT := Draft([], map[], ThankYou("", "", ""), NO_STYLE, FOLLOWS_ALL)
  const MAX_LANGUAGES := 10
  const MAX_QUESTIONS := 100

  predicate ValidLang(lang: string) {
    2 <= |lang| <= 8 && forall i :: 0 <= i < |lang| ==> 'a' <= lang[i] <= 'z' || 'A' <= lang[i] <= 'Z' || (lang[i] == '-' && i > 0)
  }

  // --- the account ------------------------------------------------------------

  /** A workspace's own style, with the translations made of its words. */
  datatype Account = Account(style: Style, localizations: map<string, LocalizedStyle>) {
    /** The words of some parts still need translating or reading in a language. */
    predicate PendingFor(lang: string, parts: Parts) {
      var source := style.Words().Only(parts);
      !source.IsZero() &&
      (lang !in localizations
       || !localizations[lang].reviewed
       || localizations[lang].source.Only(parts) != source
       || !localizations[lang].words.Only(parts).Covers(source))
    }

    function SetStyle(s: Style, addresses: AddressRule): Result<Account> {
      var settled := s.(thanks := s.thanks.Settle());
      match settled.Validate(addresses)
      case Some(e) => Err(e)
      case None => Ok(this.(style := settled))
    }

    /** A form may name the wording it translates; it is refused when that is no longer the style's. */
    function SetTranslationOf(source: Option<StyleWords>, lang: string, words: StyleWords, reviewed: bool): Result<Account> {
      if source.Some? && source.value != style.Words() then Err(AccountWordsChanged)
      else if !ValidLang(lang) then Err(LanguageInvalid)
      else match NewLocalizedStyle(style.Words(), words, reviewed)
        case Err(e) => Err(e)
        case Ok(t) => Ok(this.(localizations := localizations[lang := t]))
    }

    function RemoveLanguage(lang: string): Account {
      this.(localizations := localizations - {lang})
    }
  }

  const NO_ACCOUNT := Account(NO_STYLE, map[])

  // --- the draft --------------------------------------------------------------

  datatype Draft = Draft(questions: seq<Question>, localizations: map<string, Localization>, thanks: ThankYou,
                         style: Style, choice: StyleChoice) {

    // --- questions ---

    predicate Knows(identity: string) { exists q <- questions :: q.identity == identity }

    function IndexOf(identity: string): (i: nat)
      requires Knows(identity)
      ensures i < |questions| && questions[i].identity == identity
      ensures forall j :: 0 <= j < i ==> questions[j].identity != identity
    {
      FirstIndex(questions, identity)
    }

    function Add(q: Question, rule: QuestionRule): Result<Draft> {
      if |questions| >= MAX_QUESTIONS then Err(Limit(QuestionCount))
      else if !rule(q) then Err(QuestionRefused(0))
      else Ok(this.(questions := questions + [q]))
    }

    function Replace(identity: string, q: Question, rule: QuestionRule): Result<Draft> {
      var kept := q.(identity := identity);
      if !Knows(identity) then Err(QuestionUnknown)
      else if !rule(kept) then Err(QuestionRefused(0))
      else Ok(this.(questions := questions[IndexOf(identity) := kept]))
    }

    function Remove(identity: string): Result<Draft> {
      if !Knows(identity) then Err(QuestionUnknown)
      else Ok(this.(questions := Without(questions, IndexOf(identity))))
    }

    function Move(identity: string, delta: int): Result<Draft> {
      if !Knows(identity) then Err(QuestionUnknown)
      else Ok(this.(questions := Moved(questions, IndexOf(identity), MoveTarget(|questions|, IndexOf(identity), delta))))
    }

    // --- which parts are whose ---

    function OwnParts(): Parts {
      Parts(choice.own.theme || style.theme != "", choice.own.header || !style.header.IsZero(),
            choice.own.footer || !style.footer.IsZero(), choice.own.thanks || !style.thanks.IsZero())
    }

    function FollowedParts(): Parts {
      var own := OwnParts();
      Parts(!own.theme, !own.header && !choice.noHeader, !own.footer && !choice.noFooter, !own.thanks)
    }

    /** What the form is filled with: own parts from the survey, the others from the account. */
    function FormStyle(account: Style): Style {
      var own := OwnParts();
      Style(if own.theme then style.theme else account.theme,
            if own.header then style.header else account.header,
            if own.footer then style.footer else account.footer,
            if own.thanks then style.thanks else account.thanks)
    }

    /** What respondents get: the same, without a header or a footer switched off. */
    function ResolvedStyle(account: Style): Style {
      var s := FormStyle(account);
      s.(header := if choice.noHeader then NO_HEADER else s.header,
         footer := if choice.noFooter then NO_FOOTER else s.footer)
    }

    /** Own parts that are shown and can have words. */
    function OwnWordParts(): Parts {
      var own := OwnParts();
      Parts(false, own.header && !choice.noHeader, own.footer && !choice.noFooter, own.thanks)
    }

    /** Followed parts that are shown and can have words. */
    function FollowedWordParts(): Parts {
      FollowedParts().(theme := false)
    }

    function OwnStyleWords(): StyleWords { style.Words().Only(OwnWordParts()) }

    // --- the gates ---

    predicate QuestionPending(lang: string, q: Question)
      requires lang in localizations
    {
      var known := localizations[lang].questions;
      q.identity !in known || !known[q.identity].reviewed || known[q.identity].sourceText != q.text
    }

    function Pending(lang: string): seq<Question> {
      if lang !in localizations then [] else PendingAmong(lang, questions)
    }

    function PendingAmong(lang: string, among: seq<Question>): (pending: seq<Question>)
      requires lang in localizations
      ensures forall q :: q in pending <==> q in among && QuestionPending(lang, q)
    {
      if among == [] then []
      else
        var init, last := among[..|among| - 1], among[|among| - 1];
        assert among == init + [last];
        PendingAmong(lang, init) + if QuestionPending(lang, last) then [last] else []
    }

    predicate HasThanksToTranslate() { thanks.message != "" || thanks.linkLabel != "" }

    predicate ThanksPending(lang: string) {
      lang in localizations && HasThanksToTranslate() &&
      match localizations[lang].thanks
      case None => true
      case Some(t) =>
        !t.reviewed || t.sourceMessage != thanks.message || t.sourceLinkLabel != thanks.linkLabel
        || (thanks.message != "" && t.message == "") || (thanks.linkLabel != "" && t.linkLabel == "")
    }

    predicate StylePending(lang: string) {
      lang in localizations && !OwnStyleWords().IsZero() &&
      match localizations[lang].style
      case None => true
      case Some(t) =>
        !t.reviewed || t.source.Only(OwnWordParts()) != OwnStyleWords()
        || !t.words.Only(OwnWordParts()).Covers(OwnStyleWords())
    }

    predicate AccountStylePending(account: Account, lang: string) {
      account.PendingFor(lang, FollowedWordParts())
    }

    /** Something of the survey's own waits for a translation to be made or read. */
    predicate SurveyPending(lang: string) {
      Pending(lang) != [] || ThanksPending(lang) || StylePending(lang)
    }

    function HeldLanguages(account: Account): set<string> {
      set lang | lang in localizations && AccountStylePending(account, lang)
    }

    /** The gate before a publish; an account's language that holds it is the first in order. */
    function ReadyToPublish(account: Account): Option<Error> {
      if exists lang <- localizations.Keys :: SurveyPending(lang) then Some(UnreviewedTranslation)
      else if HeldLanguages(account) != {} then Some(AccountStyleUnread(First(HeldLanguages(account))))
      else None
    }

    // --- translations ---

    function AddLanguage(lang: string): Result<Draft> {
      if !ValidLang(lang) then Err(LanguageInvalid)
      else if lang in localizations then Err(LanguageExists)
      else if |localizations| >= MAX_LANGUAGES then Err(Limit(LanguageCount))
      else Ok(this.(localizations := localizations[lang := Localization(map[], None, None)]))
    }

    function RemoveLanguage(lang: string): Result<Draft> {
      if lang !in localizations then Err(UnknownLanguage) else Ok(this.(localizations := localizations - {lang}))
    }

    function SetTranslation(lang: string, identity: string, text: string, options: seq<string>, reviewed: bool): Result<Draft> {
      if lang !in localizations then Err(UnknownLanguage)
      else if !Knows(identity) then Err(QuestionUnknown)
      else
        var was := localizations[lang];
        var q := LocalizedQuestion(TrimSpace(text), options, reviewed, questions[IndexOf(identity)].text);
        Ok(this.(localizations := localizations[lang := was.(questions := was.questions[identity := q])]))
    }

    function SetThanksTranslation(lang: string, message: string, linkLabel: string, reviewed: bool): Result<Draft> {
      if lang !in localizations then Err(UnknownLanguage)
      else
        var t := LocalizedThanks(if thanks.message == "" then "" else NormalizeMessage(message),
                                 if thanks.linkLabel == "" then "" else TrimSpace(linkLabel),
                                 reviewed, thanks.message, thanks.linkLabel);
        if |t.message| > 1000 then Err(Limit(ThanksMessageLen))
        else if |t.linkLabel| > 60 then Err(Limit(ThanksLabelLen))
        else Ok(this.(localizations := localizations[lang := localizations[lang].(thanks := Some(t))]))
    }

    function SetStyleTranslation(lang: string, words: StyleWords, reviewed: bool): Result<Draft> {
      if lang !in localizations then Err(UnknownLanguage)
      else match NewLocalizedStyle(OwnStyleWords(), words, reviewed)
        case Err(e) => Err(e)
        case Ok(t) => Ok(this.(localizations := localizations[lang := localizations[lang].(style := Some(t))]))
    }

    /** The translated thank you page, if there is one to show and it is not pending. */
    function LocalizedThanksIn(lang: string): Option<ThankYou> {
      if !HasThanksToTranslate() || ThanksPending(lang) then None
      else if lang !in localizations || localizations[lang].thanks.None? then None
      else
        var t := localizations[lang].thanks.value;
        Some(ThankYou(t.message, t.linkLabel, thanks.linkURL))
    }

    /** Own words from the survey's translation and followed ones from the account's, unless either is pending. */
    function ResolvedStyleWords(account: Account, lang: string): Option<StyleWords> {
      var own, followed := OwnWordParts(), FollowedWordParts();
      var ownSource := OwnStyleWords();
      var followedSource := account.style.Words().Only(followed);
      if ownSource.IsZero() && followedSource.IsZero() then None
      else if !ownSource.IsZero() && (lang !in localizations || localizations[lang].style.None? || StylePending(lang)) then None
      else if !followedSource.IsZero() && account.PendingFor(lang, followed) then None
      else
        var words := if ownSource.IsZero() then NO_WORDS else localizations[lang].style.value.words.Only(own);
        Some(if followedSource.IsZero() then words else words.With(account.localizations[lang].words, followed))
    }

    function ResolvedLocalizedStyle(account: Account, lang: string): Option<Style> {
      match ResolvedStyleWords(account, lang)
      case None => None
      case Some(words) => Some(ResolvedStyle(account.style).WithWords(words))
    }

    // --- the Style tab ---

    /** The parts and switches a form leaves: a carried part the account has as it stands is
        followed, one that differs is the survey's own, whole. */
    function Carry(account: Style, submitted: Style, carried: Parts, header: Option<bool>, footer: Option<bool>): Draft {
      var theme := SameTheme(submitted.theme, account.theme);
      var head := submitted.header.Draws(account.header);
      var foot := submitted.footer.Draws(account.footer);
      var thank := submitted.thanks.Draws(account.thanks);
      this.(style := Style(if !carried.theme then style.theme else if theme then "" else submitted.theme,
                           if !carried.header then style.header else if head then NO_HEADER else submitted.header,
                           if !carried.footer then style.footer else if foot then NO_FOOTER else submitted.footer,
                           if !carried.thanks then style.thanks else if thank then OWL else submitted.thanks),
            choice := StyleChoice(Parts(if carried.theme then !theme else choice.own.theme,
                                        if carried.header then !head else choice.own.header,
                                        if carried.footer then !foot else choice.own.footer,
                                        if carried.thanks then !thank else choice.own.thanks),
                                  if header.Some? then !header.value else choice.noHeader,
                                  if footer.Some? then !footer.value else choice.noFooter))
    }

    /** The parts with words that are the survey's own and were not before. */
    function NewlyOwn(before: Draft): Parts {
      var was, own := before.OwnParts(), OwnParts();
      Parts(false, own.header && !was.header, own.footer && !was.footer, own.thanks && !was.thanks)
    }

    /** The words of a part given are some, and are the account's. */
    predicate HasSameWords(account: Style, parts: Parts, p: WordPart) {
      parts.Has(p) && !style.Words().Only(Just(p)).IsZero() && style.Words().Only(Just(p)) == account.Words().Only(Just(p))
    }

    /** Of the parts given, those whose words are some, and are the account's. */
    function SameWords(account: Style, parts: Parts): Parts {
      Parts(false, HasSameWords(account, parts, HeaderWords), HasSameWords(account, parts, FooterWords), HasSameWords(account, parts, ThanksWords))
    }

    /** One language's translation with the account's words of some parts adopted. */
    function AdoptedIn(account: Account, lang: string, same: Parts): LocalizedStyle
      requires lang in localizations && lang in account.localizations
    {
      var t := match localizations[lang].style
        case Some(was) => was
        case None => LocalizedStyle(NO_WORDS, true, NO_WORDS);
      LocalizedStyle(t.words.With(account.localizations[lang].words, same),
                     t.reviewed && !account.PendingFor(lang, same),
                     t.source.With(style.Words(), same))
    }

    function AdoptStyleTranslations(account: Account, parts: Parts): Draft {
      var same := SameWords(account.style, parts);
      if same.IsZero() then this else this.(localizations := Adopting(account, same))
    }

    function Adopting(account: Account, same: Parts): map<string, Localization> {
      map lang | lang in localizations ::
        if lang in account.localizations then localizations[lang].(style := Some(AdoptedIn(account, lang, same)))
        else localizations[lang]
    }

    /** What the Style tab posted, recorded. */
    function SetStyleFromForm(account: Account, submitted: Style, carried: Parts,
                              header: Option<bool>, footer: Option<bool>, addresses: AddressRule): Result<Draft> {
      var s := submitted.(thanks := submitted.thanks.Settle(),
                          theme := if submitted.theme == EARFUL then "" else submitted.theme);
      match s.Validate(addresses)
      case Some(e) => Err(e)
      case None =>
        var d := this.Carry(account.style, s, carried, header, footer);
        Ok(d.AdoptStyleTranslations(account, d.NewlyOwn(this)))
    }

    function ResetStyle(): Draft {
      this.(style := NO_STYLE, choice := FOLLOWS_ALL)
    }

    // --- publishing ---

    function FirstRefused(rule: QuestionRule, at: nat): Option<nat>
      requires at <= |questions|
      decreases |questions| - at
    {
      if at == |questions| then None
      else if !rule(questions[at]) then Some(at + 1)
      else FirstRefused(rule, at + 1)
    }

    function ValidateForPublish(rules: Rules): Option<Error> {
      if questions == [] then Some(DraftEmpty)
      else if |questions| > MAX_QUESTIONS then Some(Limit(QuestionCount))
      else if FirstRefused(rules.questions, 0).Some? then Some(QuestionRefused(FirstRefused(rules.questions, 0).value))
      else if thanks.Validate(rules.addresses).Some? then thanks.Validate(rules.addresses)
      else style.Validate(rules.addresses)
    }
  }

  function FirstIndex(questions: seq<Question>, identity: string): (i: nat)
    requires exists q <- questions :: q.identity == identity
    ensures i < |questions| && questions[i].identity == identity
    ensures forall j :: 0 <= j < i ==> questions[j].identity != identity
  {
    if questions[0].identity == identity then 0
    else
      assert exists q <- questions[1..] :: q.identity == identity by {
        var q :| q in questions && q.identity == identity;
        assert questions == [questions[0]] + questions[1..];
        assert q in questions[1..];
      }
      1 + FirstIndex(questions[1..], identity)
  }

  function Without<T>(s: seq<T>, i: nat): seq<T>
    requires i < |s|
  {
    s[..i] + s[i + 1..]
  }

  /** Where a move ends, clamped at the ends. */
  function MoveTarget(n: nat, i: nat, delta: int): (j: nat)
    requires i < n
    ensures j < n
  {
    if i + delta < 0 then 0 else if i + delta > n - 1 then n - 1 else i + delta
  }

  function Moved<T>(s: seq<T>, i: nat, j: nat): (out: seq<T>)
    requires i < |s| && j < |s|
    ensures |out| == |s|
  {
    var rest := Without(s, i);
    rest[..j] + [s[i]] + rest[j..]
  }

  /** Where the item at k after a move came from. */
  function Origin(i: nat, j: nat, k: nat): nat {
    if k == j then i else if i <= k < j then k + 1 else if j < k <= i then k - 1 else k
  }

  /** A move takes one item to its place and shifts those between by one: the rest keep their order. */
  lemma MovedAt<T>(s: seq<T>, i: nat, j: nat, k: nat)
    requires i < |s| && j < |s| && k < |s|
    ensures Origin(i, j, k) < |s| && Moved(s, i, j)[k] == s[Origin(i, j, k)]
  {
    var rest := Without(s, i);
    if k < j {
      assert Moved(s, i, j)[k] == rest[k];
    } else if k > j {
      assert Moved(s, i, j)[k] == rest[k - 1];
    }
  }

  /** Moving a question and moving it back is as if it had not moved. */
  lemma MovingBackRestores<T>(s: seq<T>, i: nat, j: nat)
    requires i < |s| && j < |s|
    ensures Moved(Moved(s, i, j), j, i) == s
  {
    var m := Moved(s, i, j);
    forall k | 0 <= k < |s| ensures Moved(m, j, i)[k] == s[k] {
      MovedAt(m, j, i, k);
      MovedAt(s, i, j, Origin(j, i, k));
    }
  }
}
