/** Kinds of characters. */
module Characters {

  predicate Space(c: char) {
    c == ' ' || '\t' <= c <= '\r'
  }
}
