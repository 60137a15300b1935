/** Occurrences of one string inside another. */
module Text {

  predicate OccursAt(line: string, word: string, i: int) {
    0 <= i && i + |word| <= |line| && line[i..i + |word|] == word
  }

  predicate Contains(line: string, word: string) {
    exists i :: 0 <= i <= |line| && OccursAt(line, word, i)
  }
}
