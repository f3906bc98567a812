/** Tokens and the states of the lexer. */
module Tokens {

  // What a failing state function complains about (the message text is not modelled).
  datatype LexError =
    | UnexpectedEOF
    | NoTopLevelEnd
    | EmptyTableName
    | NoArrayTableEnd
    | NoTableNameEnd
    | NoKeyBeforeSeparator
    | BadBareKey
    | NoKeySeparator
    | FloatWithoutDigit
    | NoValue
    | UnexpectedComma
    | NoArrayEnd
    | NewlineInInlineTable
    | NoInlineTableEnd
    | NewlineInString
    | BadEscape
    | BadShortEscape
    | BadLongEscape
    | NoDigit
    | NoStateToPop

  datatype TokenType =
    | ItemError(error: LexError)
    | ItemEOF
    | ItemText
    | ItemString
    | ItemRawString
    | ItemMultilineString
    | ItemRawMultilineString
    | ItemBool
    | ItemInteger
    | ItemFloat
    | ItemDatetime
    | ItemArray
    | ItemArrayEnd
    | ItemTableStart
    | ItemTableEnd
    | ItemArrayTableStart
    | ItemArrayTableEnd
    | ItemKeyStart
    | ItemCommentStart
    | ItemInlineTableStart
    | ItemInlineTableEnd

  datatype Token = Token(typ: TokenType, val: string)

  // A token as it travels in the lexer's queue.
  datatype Item = Item(tok: Token, line: nat)

  // The state functions.  LexSkip(s) is the closure that drops the pending text and goes
  // on with s; LexDone is the nil state.
  datatype State =
    | LexTop
    | LexTopEnd
    | LexTableStart
    | LexTableEnd
    | LexArrayTableEnd
    | LexTableNameStart
    | LexBareTableName
    | LexTableNameEnd
    | LexKeyStart
    | LexBareKey
    | LexKeyEnd
    | LexValue
    | LexArrayValue
    | LexArrayValueEnd
    | LexArrayEnd
    | LexInlineTableValue
    | LexInlineTableValueEnd
    | LexInlineTableEnd
    | LexString
    | LexMultilineString
    | LexRawString
    | LexMultilineRawString
    | LexMultilineStringEscape
    | LexStringEscape
    | LexShortUnicodeEscape
    | LexLongUnicodeEscape
    | LexNumberOrDateStart
    | LexNumberOrDate
    | LexDatetime
    | LexNumberStart
    | LexNumber
    | LexFloat
    | LexBool
    | LexCommentStart
    | LexComment
    | LexSkip(next: State)
    | LexDone

  predicate IsTerminal(t: Token) {
    t.typ.ItemEOF? || t.typ.ItemError?
  }
}
