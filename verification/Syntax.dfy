/** The byte classes and tables of the parser: which bytes may stand in a header
    name or in a URL, and how digits are read.  A byte is a `char` below 256;
    every table gives bytes 128..255 the value its C initialiser leaves there. */
module Syntax {

  datatype Option<T> = None | Some(value: T)

  const CR := '\r'
  const LF := '\n'

  function Repeat(ch: char, n: nat): string { seq(n, i requires 0 <= i < n => ch) }

  predicate IsDigit(ch: char) { '0' <= ch <= '9' }

  predicate IsUpper(ch: char) { 'A' <= ch <= 'Z' }

  predicate IsLower(ch: char) { 'a' <= ch <= 'z' }

  predicate IsLetter(ch: char) { IsUpper(ch) || IsLower(ch) }

  function DigitValue(ch: char): nat
    requires IsDigit(ch)
  {
    ch as int - '0' as int
  }

  /** `LOWER`: sets bit 5 of the byte, whatever the byte is. */
  function Lower(ch: char): char {
    if ch as int < 32 || 64 <= ch as int < 96 || 128 <= ch as int < 160 || 192 <= ch as int < 224
    then (ch as int + 32) as char else ch
  }

  /** `TOKEN`: the lower-cased byte if it may stand in a header name, else NUL. */
  function Token(ch: char): char {
    if IsUpper(ch) then (ch as int + 32) as char
    else if || ' ' <= ch <= '\''
            || ch == '*' || ch == '+'
            || '-' <= ch <= '9'
            || '^' <= ch <= 'z'
            || '|' <= ch <= '~'
    then ch
    else '\0'
  }

  predicate IsToken(ch: char) { Token(ch) != '\0' }

  /** `normal_url_char`: the visible bytes other than '#', '?' and DEL. */
  predicate IsUrlChar(ch: char) {
    '!' <= ch <= '~' && ch != '#' && ch != '?'
  }

  /** `unhex`: the value of a hexadecimal digit, -1 for other bytes below 128,
      and 0 for the entries the table does not initialise. */
  function Unhex(ch: char): (v: int)
    ensures -1 <= v < 16
  {
    if IsDigit(ch) then DigitValue(ch)
    else if 'A' <= ch <= 'F' then ch as int - 'A' as int + 10
    else if 'a' <= ch <= 'f' then ch as int - 'a' as int + 10
    else if ch as int >= 128 then 0
    else -1
  }

  /** `size_t` and `uint64_t` arithmetic wraps at 2^64. */
  const SIZE_MODULUS: nat := 0x1_0000_0000_0000_0000

  /** The largest positive `int64_t` is one less than this. */
  const SIGN_LIMIT: nat := 0x8000_0000_0000_0000

  function Wrap(n: nat): (w: nat)
    ensures w < SIZE_MODULUS
    ensures n < SIZE_MODULUS ==> w == n
  {
    n % SIZE_MODULUS
  }
}
