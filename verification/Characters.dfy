/** Character classes; ASCII only. */
module Characters {

  predicate IsSpace(c: char) {
    c in {' ', '\t', '\n', '\r', 0x0B as char, 0x0C as char}
  }

  predicate IsDigit(c: char) {
    '0' <= c <= '9'
  }

  predicate IsUpper(c: char) {
    'A' <= c <= 'Z'
  }

  predicate IsLower(c: char) {
    'a' <= c <= 'z'
  }

  predicate IsAlnum(c: char) {
    IsDigit(c) || IsUpper(c) || IsLower(c)
  }

  function LowerChar(c: char): char {
    if IsUpper(c) then c + ('a' - 'A') else c
  }

  function Lower(s: string): (r: string)
    ensures |r| == |s|
    ensures forall i :: 0 <= i < |s| ==> r[i] == LowerChar(s[i])
  {
    seq(|s|, i requires 0 <= i < |s| => LowerChar(s[i]))
  }
}
