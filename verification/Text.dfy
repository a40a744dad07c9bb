/** Character-level vocabulary shared by the parsers: Python's notion of white space. */
module Text {

  /** `str.isspace` for one character: every code point Python counts as white space. */
  predicate IsSpace(c: char) {
    var n := c as int;
    9 <= n <= 13 || 28 <= n <= 32 || n == 0x85 || n == 0xA0 || n == 0x1680 ||
    0x2000 <= n <= 0x200A || n == 0x2028 || n == 0x2029 || n == 0x202F || n == 0x205F || n == 0x3000
  }

  predicate AllSpace(s: string) {
    forall i :: 0 <= i < |s| ==> IsSpace(s[i])
  }

  predicate NoSpace(s: string) {
    forall i :: 0 <= i < |s| ==> !IsSpace(s[i])
  }

  /** `s.lstrip()`. */
  function TrimLeft(s: string): (r: string)
    ensures |r| <= |s|
    ensures r == [] || !IsSpace(r[0])
  {
    if s == [] || !IsSpace(s[0]) then s else TrimLeft(s[1..])
  }

  /** White space in front of a word is exactly what `TrimLeft` removes. */
  lemma {:induction false} TrimLeftSkips(pad: string, word: string)
    requires AllSpace(pad)
    requires word == [] || !IsSpace(word[0])
    ensures TrimLeft(pad + word) == word
  {
    if pad == [] {
      assert pad + word == word;
    } else {
      assert (pad + word)[1..] == pad[1..] + word;
      TrimLeftSkips(pad[1..], word);
    }
  }
}
