/** The tables and the limits of the parser, entry by entry. */
module Tables {
  import opened Spelling
  import opened Syntax
  import opened Machine
  import Transfer

  /** The bytes with an entry in `tokens`. */
  predicate TokenByte(ch: char) {
    ch in {' ', '!', '\"', '#', '$', '%', '&', '\'', '*', '+', '-', '.', '/', '0', '1', '2', '3', '4', '5', '6', '7', '8', '9', 'A',
       'B', 'C', 'D', 'E', 'F', 'G', 'H', 'I', 'J', 'K', 'L', 'M', 'N', 'O', 'P', 'Q', 'R', 'S', 'T', 'U', 'V', 'W', 'X', 'Y',
       'Z', '^', '_', '`', 'a', 'b', 'c', 'd', 'e', 'f', 'g', 'h', 'i', 'j', 'k', 'l', 'm', 'n', 'o', 'p', 'q', 'r', 's', 't',
       'u', 'v', 'w', 'x', 'y', 'z', '|', '}', '~'}
  }

  /** A byte may stand in a header name exactly when it is listed, and a capital counts as its
      small letter. */
  lemma TokenTable(ch: char)
    ensures IsToken(ch) <==> TokenByte(ch)
    ensures IsToken(ch) ==> Token(ch) == SmallLetter(ch)
  {
  }

  /** The bytes with an entry in `normal_url_char`. */
  predicate UrlByteListed(ch: char) {
    ch in {'!', '\"', '$', '%', '&', '\'', '(', ')', '*', '+', ',', '-', '.', '/', '0', '1', '2', '3', '4', '5', '6', '7', '8', '9',
       ':', ';', '<', '=', '>', '@', 'A', 'B', 'C', 'D', 'E', 'F', 'G', 'H', 'I', 'J', 'K', 'L', 'M', 'N', 'O', 'P', 'Q', 'R',
       'S', 'T', 'U', 'V', 'W', 'X', 'Y', 'Z', '[', '\\', ']', '^', '_', '`', 'a', 'b', 'c', 'd', 'e', 'f', 'g', 'h', 'i', 'j',
       'k', 'l', 'm', 'n', 'o', 'p', 'q', 'r', 's', 't', 'u', 'v', 'w', 'x', 'y', 'z', '{', '|', '}', '~'}
  }

  lemma UrlTable(ch: char)
    ensures IsUrlChar(ch) <==> UrlByteListed(ch)
  {
  }

  predicate LetterListed(ch: char) {
    ch in {'A', 'B', 'C', 'D', 'E', 'F', 'G', 'H', 'I', 'J', 'K', 'L', 'M', 'N', 'O', 'P', 'Q', 'R', 'S', 'T', 'U', 'V', 'W', 'X',
       'Y', 'Z', 'a', 'b', 'c', 'd', 'e', 'f', 'g', 'h', 'i', 'j', 'k', 'l', 'm', 'n', 'o', 'p', 'q', 'r', 's', 't', 'u', 'v',
       'w', 'x', 'y', 'z'}
  }

  predicate DigitListed(ch: char) { ch in {'0', '1', '2', '3', '4', '5', '6', '7', '8', '9'} }

  /** Letters, capitals and digits are what they are called, and a digit is worth its value. */
  lemma LetterTable(ch: char)
    ensures IsLetter(ch) <==> LetterListed(ch)
    ensures IsUpper(ch) <==> SmallLetter(ch) != ch
    ensures IsDigit(ch) <==> DigitListed(ch)
    ensures IsDigit(ch) ==> DigitValue(ch) == HexValue(ch)
  {
  }

  /** `LOWER` makes a capital small and leaves small letters, digits, and the bytes from space
      to `?` alone. */
  lemma LowerTable(ch: char)
    ensures LetterListed(ch) || DigitListed(ch) || ' ' <= ch <= '?' ==> Lower(ch) == SmallLetter(ch)
  {
  }

  /** The sizes the C text gives. */
  lemma Limits()
    ensures MAX_HEADER_SIZE == 81920
    ensures SIZE_MODULUS == 18446744073709551616 && SIGN_LIMIT == 9223372036854775808
    ensures CR as int == 13 && LF as int == 10
    ensures forall n: nat :: Wrap(n) == n % 18446744073709551616
    ensures Transfer.BUFSIZ == 8192 && Transfer.INT_LIMIT == 2147483648
  {
  }
}
