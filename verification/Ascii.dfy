/** Letters of ASCII, as the C locale knows them. */
module Ascii {

  function LowerChar(c: char): char {
    if 'A' <= c <= 'Z' then c - 'A' + 'a' else c
  }
}
