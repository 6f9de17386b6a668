/** What the C library does with single characters. */
module Text {

  /** tolower, in the C locale. */
  function ToLower(c: char): char {
    if 'A' <= c <= 'Z' then (c as int - 'A' as int + 'a' as int) as char else c
  }
}
