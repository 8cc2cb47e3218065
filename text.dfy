/** `String.Trim()` on decoded text: the white space it strips from both ends is the set of
    characters `Char.IsWhiteSpace` accepts. */
module Text {
  import opened Utf8

  /** `Char.IsWhiteSpace`: the Unicode space separators, the line and paragraph separators, and
      the control characters U+0009 to U+000D and U+0085. */
  predicate IsWhiteSpace(c: Scalar) {
    || 0x09 <= c <= 0x0D || c == 0x20 || c == 0x85 || c == 0xA0 || c == 0x1680
    || 0x2000 <= c <= 0x200A || c == 0x2028 || c == 0x2029 || c == 0x202F || c == 0x205F
    || c == 0x3000
  }

  /** Text that neither starts nor ends with white space, which trimming leaves alone. */
  predicate Untrimmed(t: seq<Scalar>) {
    t == [] || (!IsWhiteSpace(t[0]) && !IsWhiteSpace(t[|t| - 1]))
  }

  /** Drops the leading white space: what is left is a suffix, everything dropped was white
      space, and what is left does not start with white space. */
  function TrimStart(t: seq<Scalar>): (r: seq<Scalar>)
    ensures |r| <= |t| && r == t[|t| - |r|..]
    ensures forall k :: 0 <= k < |t| - |r| ==> IsWhiteSpace(t[k])
    ensures r == [] || !IsWhiteSpace(r[0])
  {
    if t != [] && IsWhiteSpace(t[0]) then TrimStart(t[1..]) else t
  }

  /** Drops the trailing white space: what is left is a prefix, everything dropped was white
      space, and what is left does not end with white space. */
  function TrimEnd(t: seq<Scalar>): (r: seq<Scalar>)
    ensures |r| <= |t| && r == t[..|r|]
    ensures forall k :: |r| <= k < |t| ==> IsWhiteSpace(t[k])
    ensures r == [] || !IsWhiteSpace(r[|r| - 1])
  {
    if t != [] && IsWhiteSpace(t[|t| - 1]) then TrimEnd(t[..|t| - 1]) else t
  }

  /** `String.Trim()`: the text between the leading and the trailing white space. What is left
      is a slice of `t` starting at `|t| - |TrimStart(t)|`, everything dropped on either side was
      white space, and what is left has no white space at either end. */
  function Trim(t: seq<Scalar>): (r: seq<Scalar>)
    ensures var i := |t| - |TrimStart(t)|;
      && i + |r| <= |t| && r == t[i..i + |r|]
      && (forall k :: 0 <= k < i ==> IsWhiteSpace(t[k]))
      && (forall k :: i + |r| <= k < |t| ==> IsWhiteSpace(t[k]))
    ensures Untrimmed(r)
  {
    TrimEnd(TrimStart(t))
  }

  /** Any slice of `t` that has only white space outside it and none at its own ends is the
      trimmed text, so the contract of `Trim` pins its result down. */
  lemma {:induction false} TrimIsUnique(t: seq<Scalar>, i: nat, j: nat)
    requires i <= j <= |t|
    requires forall k :: 0 <= k < i ==> IsWhiteSpace(t[k])
    requires forall k :: j <= k < |t| ==> IsWhiteSpace(t[k])
    requires Untrimmed(t[i..j])
    ensures t[i..j] == Trim(t)
  {
  }

  /** Trimming leaves text without outer white space unchanged, and turns text made only of
      white space into the empty string. */
  lemma TrimFixesUntrimmed(t: seq<Scalar>)
    ensures Untrimmed(t) ==> Trim(t) == t
    ensures (forall k :: 0 <= k < |t| ==> IsWhiteSpace(t[k])) ==> Trim(t) == []
  {
  }
}
