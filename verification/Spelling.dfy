/** Letters and digits spelt out one by one: what the tables of the parser are compared with. */
module Spelling {

  /** The small letter of a capital; every other byte is itself. */
  function SmallLetter(ch: char): char {
    match ch
    case 'A' => 'a'
    case 'B' => 'b'
    case 'C' => 'c'
    case 'D' => 'd'
    case 'E' => 'e'
    case 'F' => 'f'
    case 'G' => 'g'
    case 'H' => 'h'
    case 'I' => 'i'
    case 'J' => 'j'
    case 'K' => 'k'
    case 'L' => 'l'
    case 'M' => 'm'
    case 'N' => 'n'
    case 'O' => 'o'
    case 'P' => 'p'
    case 'Q' => 'q'
    case 'R' => 'r'
    case 'S' => 's'
    case 'T' => 't'
    case 'U' => 'u'
    case 'V' => 'v'
    case 'W' => 'w'
    case 'X' => 'x'
    case 'Y' => 'y'
    case 'Z' => 'z'
    case _ => ch
  }

  /** The text is the literal, in any mixture of capitals and small letters. */
  predicate SameLetters(s: string, literal: string) {
    |s| == |literal| && forall i :: 0 <= i < |s| ==> SmallLetter(s[i]) == literal[i]
  }

  /** The value of a hexadecimal digit, and -1 for every other byte. */
  function HexValue(ch: char): (v: int)
    ensures -1 <= v < 16
  {
    match ch
    case '0' => 0
    case '1' => 1
    case '2' => 2
    case '3' => 3
    case '4' => 4
    case '5' => 5
    case '6' => 6
    case '7' => 7
    case '8' => 8
    case '9' => 9
    case 'A' | 'a' => 10
    case 'B' | 'b' => 11
    case 'C' | 'c' => 12
    case 'D' | 'd' => 13
    case 'E' | 'e' => 14
    case 'F' | 'f' => 15
    case _ => -1
  }
}
