/** The few `str` operations the services rely on, with Python's meaning. */
module Text {

  /** Python's `str.isspace` characters, which is what `str.strip()` removes. */
  predicate IsSpace(c: char) {
    || '\t' <= c <= '\r'
    || '\U{1C}' <= c <= ' '
    || c == '\U{85}' || c == '\U{A0}' || c == '\U{1680}'
    || '\U{2000}' <= c <= '\U{200A}'
    || c == '\U{2028}' || c == '\U{2029}' || c == '\U{202F}' || c == '\U{205F}' || c == '\U{3000}'
  }

  /** By code point: the separators of ASCII and Latin-1, and the Unicode spaces. */
  lemma IsSpaceIff(c: char)
    ensures var n := c as int;
            IsSpace(c) <==> || 0x09 <= n <= 0x0D || 0x1C <= n <= 0x20 || n == 0x85 || n == 0xA0 || n == 0x1680
                            || 0x2000 <= n <= 0x200A || n in [0x2028, 0x2029, 0x202F, 0x205F, 0x3000]
  {
  }

  function StripLeft(s: string): string {
    if s != "" && IsSpace(s[0]) then StripLeft(s[1..]) else s
  }

  function StripRight(s: string): string {
    if s != "" && IsSpace(s[|s| - 1]) then StripRight(s[..|s| - 1]) else s
  }

  /** `s.strip()` */
  function Strip(s: string): string {
    StripRight(StripLeft(s))
  }

  /** No white space at either end. */
  predicate Trimmed(s: string) {
    s != "" ==> !IsSpace(s[0]) && !IsSpace(s[|s| - 1])
  }

  lemma StripRightKeepsFront(s: string)
    requires s != "" ==> !IsSpace(s[0])
    ensures Trimmed(StripRight(s))
  {
  }

  lemma StripLeftTrimsFront(s: string)
    ensures StripLeft(s) != "" ==> !IsSpace(StripLeft(s)[0])
  {
  }

  /** Stripping leaves no outer white space, and changes nothing exactly when there was none. */
  lemma StripTrims(s: string)
    ensures Trimmed(Strip(s))
    ensures Strip(s) == s <==> Trimmed(s)
  {
    StripLeftTrimsFront(s);
    StripRightKeepsFront(StripLeft(s));
  }

  predicate AllSpace(s: string) {
    forall i | 0 <= i < |s| :: IsSpace(s[i])
  }

  lemma {:induction false} StripLeftOf(left: string, t: string)
    requires AllSpace(left) && (t != "" ==> !IsSpace(t[0]))
    ensures StripLeft(left + t) == t
  {
    if left == "" {
      assert left + t == t;
    } else {
      assert (left + t)[0] == left[0] && (left + t)[1..] == left[1..] + t;
      StripLeftOf(left[1..], t);
    }
  }

  lemma {:induction false} StripRightOf(t: string, right: string)
    requires AllSpace(right) && (t != "" ==> !IsSpace(t[|t| - 1]))
    ensures StripRight(t + right) == t
  {
    if right == "" {
      assert t + right == t;
    } else {
      var n := |right| - 1;
      assert (t + right)[|t + right| - 1] == right[n] && (t + right)[..|t + right| - 1] == t + right[..n];
      StripRightOf(t, right[..n]);
    }
  }

  lemma StripOfSpaces(s: string)
    requires AllSpace(s)
    ensures Strip(s) == ""
  {
    assert s + "" == s;
    StripLeftOf(s, "");
  }

  /** A text between white space is what stripping leaves. */
  lemma StripBetween(left: string, t: string, right: string)
    requires AllSpace(left) && AllSpace(right) && Trimmed(t)
    ensures Strip(left + t + right) == t
  {
    if t == "" {
      StripOfSpaces(left + right);
      assert left + t + right == left + right;
    } else {
      assert left + t + right == left + (t + right) && (t + right)[0] == t[0];
      StripLeftOf(left, t + right);
      StripRightOf(t, right);
    }
  }

  lemma {:induction false} StripLeftSplits(s: string) returns (left: string)
    ensures AllSpace(left) && s == left + StripLeft(s)
  {
    left := "";
    if s != "" && IsSpace(s[0]) {
      left := StripLeftSplits(s[1..]);
      left := [s[0]] + left;
    }
  }

  lemma {:induction false} StripRightSplits(s: string) returns (right: string)
    ensures AllSpace(right) && s == StripRight(s) + right
  {
    right := "";
    if s != "" && IsSpace(s[|s| - 1]) {
      right := StripRightSplits(s[..|s| - 1]);
      right := right + [s[|s| - 1]];
    }
  }

  /** Every text is its stripped form between white space. */
  lemma StripSplits(s: string) returns (left: string, right: string)
    ensures AllSpace(left) && AllSpace(right) && Trimmed(Strip(s)) && s == left + Strip(s) + right
  {
    left := StripLeftSplits(s);
    right := StripRightSplits(StripLeft(s));
    StripTrims(s);
  }
}
