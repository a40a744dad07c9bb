/** `str.strip` and what it does not see. */
module Strings {
  import opened Text

  /** `s.rstrip()`. */
  function TrimRight(s: string): (r: string)
    ensures |r| <= |s|
    ensures r == [] || !IsSpace(r[|r| - 1])
  {
    if s == [] || !IsSpace(s[|s| - 1]) then s else TrimRight(s[..|s| - 1])
  }

  /** `s.strip()`. */
  function Strip(s: string): string {
    TrimRight(TrimLeft(s))
  }

  lemma {:induction false} TrimLeftDrops(pad: string, s: string)
    requires AllSpace(pad)
    ensures TrimLeft(pad + s) == TrimLeft(s)
  {
    if pad == [] {
      assert pad + s == s;
    } else {
      assert (pad + s)[1..] == pad[1..] + s;
      TrimLeftDrops(pad[1..], s);
    }
  }

  lemma {:induction false} TrimRightDrops(s: string, pad: string)
    requires AllSpace(pad)
    ensures TrimRight(s + pad) == TrimRight(s)
    decreases |pad|
  {
    if pad == [] {
      assert s + pad == s;
    } else {
      assert (s + pad)[..|s + pad| - 1] == s + pad[..|pad| - 1];
      TrimRightDrops(s, pad[..|pad| - 1]);
    }
  }

  lemma {:induction false} TrimLeftKeepsPad(s: string, pad: string)
    requires AllSpace(pad)
    ensures TrimLeft(s + pad) == if TrimLeft(s) == "" then "" else TrimLeft(s) + pad
  {
    if s == [] {
      TrimLeftDrops(pad, "");
      assert s + pad == pad && pad + "" == pad;
    } else if IsSpace(s[0]) {
      assert (s + pad)[1..] == s[1..] + pad;
      TrimLeftKeepsPad(s[1..], pad);
    }
  }

  /** Stripping does not see white space around its argument. */
  lemma StripDrops(before: string, s: string, after: string)
    requires AllSpace(before) && AllSpace(after)
    ensures Strip(before + s + after) == Strip(s)
  {
    TrimLeftKeepsPad(before + s, after);
    TrimLeftDrops(before, s);
    if TrimLeft(s) != "" {
      TrimRightDrops(TrimLeft(s), after);
    }
  }

  lemma {:induction false} TrimRightIsPrefix(s: string)
    ensures TrimRight(s) == s[..|TrimRight(s)|]
  {
    if s != [] && IsSpace(s[|s| - 1]) {
      TrimRightIsPrefix(s[..|s| - 1]);
    }
  }

  lemma StripTwice(s: string)
    ensures Strip(Strip(s)) == Strip(s)
  {
    var t := TrimLeft(s);
    TrimRightIsPrefix(t);
    if TrimRight(t) != "" {
      assert TrimRight(t)[0] == t[0];
    }
  }

  lemma StripOfSpace(s: string)
    requires AllSpace(s)
    ensures Strip(s) == ""
  {
    TrimLeftDrops(s, "");
    assert s + "" == s;
  }
}
