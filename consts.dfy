/** The symbols, keywords and C type names that the renderer hands to its
    builder. Their spellings live in a module that is not part of this
    model; the conventional C spelling of each symbol is assumed below, and
    a C type is represented by its spelling. */
module Consts {

  /** CSymbol: punctuation the renderer emits. */
  datatype Symbol = ParenL | ParenR | BraceL | BraceR | DubQuote | Equal | SemiColon | Comma

  /** CKeyword: the only keyword the renderer emits. */
  datatype Keyword = PreprocessInclude

  /** CType: a C type name, used verbatim. */
  datatype CType = CType(spelling: string)

  /** The (assumed) text of each symbol; every symbol is one character and no two coincide. */
  function SymbolText(s: Symbol): (t: string)
    ensures |t| == 1
  {
    match s
    case ParenL => "("
    case ParenR => ")"
    case BraceL => "{"
    case BraceR => "}"
    case DubQuote => "\""
    case Equal => "="
    case SemiColon => ";"
    case Comma => ","
  }

  /** The (assumed) text of each keyword. */
  function KeywordText(k: Keyword): (t: string)
    ensures t != ""
  {
    match k
    case PreprocessInclude => "#include"
  }
}
