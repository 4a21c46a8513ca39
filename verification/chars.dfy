/** Character classes used by the scanner, restricted to ASCII.
    They follow Python's str.isspace / isalpha / isdigit / isalnum on a
    single ASCII character; the empty string (end of input) is in no class. */
module Chars {

  /** Python's isspace on ASCII: tab, newline, vertical tab, form feed,
      carriage return, the four separators 0x1C..0x1F, and space. */
  function IsSpace(c: char): (r: bool)
    ensures r <==> c in {'\t', '\n', '\U{B}', '\U{C}', '\r', '\U{1C}', '\U{1D}', '\U{1E}', '\U{1F}', ' '}
  {
    9 <= c as int <= 13 || 28 <= c as int <= 32
  }

  /** Python's isdigit on ASCII: the ten decimal digits. */
  function IsDigit(c: char): (r: bool)
    ensures r <==> c in {'0', '1', '2', '3', '4', '5', '6', '7', '8', '9'}
  {
    '0' <= c <= '9'
  }

  /** Python's isalpha on ASCII: the 52 Latin letters (listed in LettersListed). */
  predicate IsAlpha(c: char) {
    'a' <= c <= 'z' || 'A' <= c <= 'Z'
  }

  /** The letters, one by one. Kept apart from IsAlpha so that the listing is
      not carried into every proof that uses the letter class. */
  lemma LettersListed(c: char)
    ensures IsAlpha(c) <==> c in {'a', 'b', 'c', 'd', 'e', 'f', 'g', 'h', 'i', 'j', 'k', 'l', 'm',
                                  'n', 'o', 'p', 'q', 'r', 's', 't', 'u', 'v', 'w', 'x', 'y', 'z',
                                  'A', 'B', 'C', 'D', 'E', 'F', 'G', 'H', 'I', 'J', 'K', 'L', 'M',
                                  'N', 'O', 'P', 'Q', 'R', 'S', 'T', 'U', 'V', 'W', 'X', 'Y', 'Z'}
  {
  }

  /** Python's isalnum on ASCII: a letter or a digit, so never whitespace. */
  function IsAlnum(c: char): (r: bool)
    ensures r <==> IsAlpha(c) || IsDigit(c)
    ensures r ==> !IsSpace(c)
  {
    IsAlpha(c) || IsDigit(c)
  }

  /** The one-character string Python's read(1) gives at index i, or "" past the end. */
  function CharAt(input: string, i: nat): (r: string)
    ensures |r| <= 1
    ensures r == "" <==> i >= |input|
    ensures i < |input| ==> r[0] == input[i]
  {
    if i < |input| then [input[i]] else ""
  }
}
