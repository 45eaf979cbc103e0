/** Options, results, and the refusals the survey code gives its callers. */
module Wrappers {

  datatype Option<+T> = None | Some(value: T)

  datatype Result<+T> = Ok(value: T) | Err(error: Error)

  /** What a limit error names (LimitError.Kind). */
  datatype LimitKind =
    | StyleName | StyleTagline | StyleFooterLen | StyleLogoAltLen | StyleThanksAltLen | StyleLinkCount
    | ThanksMessageLen | ThanksLabelLen | LanguageCount | QuestionCount

  /** The part of a style a problem is shown beside. */
  datatype StylePart =
    | AtTheme | AtHeaderName | AtHeaderText | AtHeaderLinks | AtBanner | AtLogo | AtLogoAlt
    | AtFooterText | AtFooterLinks | AtThanksPicture | AtThanksImage | AtThanksAlt

  datatype Error =
    | UnknownTheme
    | StyleImageUnusable
    | UnknownThanksPicture
    | ThanksImageMissing
    | ThanksImageAltMissing
    | LogoAltMissing
    | LinkAddressRefused
    | LinkLabelMissing
    | LinkAddressMissing
    | Limit(kind: LimitKind)
    | InStyle(part: StylePart, link: nat, why: Error)
    | UnknownLanguage
    | LanguageInvalid
    | LanguageExists
    | UnreviewedTranslation
    | AccountStyleUnread(lang: string)
    | AccountWordsChanged
    | QuestionUnknown
    | QuestionRefused(position: nat)
    | DraftEmpty
    | NothingToPublish
    | AccountStyleChanged
    | NotFound
}
