/**
 * Splitting a string into the maximal runs of characters that are not
 * separators: Rust's `str::split_whitespace` when the separators are the
 * whitespace characters, and the piece structure of a path when the separator
 * is '/'.
 */
module Text {

  /** Rust's `char::is_whitespace`: the Unicode White_Space property. */
  predicate IsSpace(c: char) {
    var n := c as int;
    (9 <= n <= 13) || n == 32 || n == 0x85 || n == 0xA0 || n == 0x1680
    || (0x2000 <= n <= 0x200A) || n == 0x2028 || n == 0x2029 || n == 0x202F
    || n == 0x205F || n == 0x3000
  }

  predicate IsSlash(c: char) {
    c == '/'
  }

  /** No character of `w` is a separator. */
  predicate Unbroken(w: string, isSep: char -> bool) {
    forall i :: 0 <= i < |w| ==> !isSep(w[i])
  }

  /** A token: a non-empty run without separators. */
  predicate IsToken(w: string, isSep: char -> bool) {
    w != [] && Unbroken(w, isSep)
  }

  /** Every character of `s` is a separator. */
  predicate AllSeparators(s: string, isSep: char -> bool) {
    forall i :: 0 <= i < |s| ==> isSep(s[i])
  }

  /** Length of the longest separator-free prefix of `s`. */
  function RunLength(s: string, isSep: char -> bool): (n: nat)
    ensures n <= |s|
    ensures Unbroken(s[..n], isSep)
    ensures n < |s| ==> isSep(s[n])
  {
    if s == [] || isSep(s[0]) then 0 else 1 + RunLength(s[1..], isSep)
  }

  /** The maximal separator-free runs of `s`, in order. */
  function Tokens(s: string, isSep: char -> bool): (ws: seq<string>)
    ensures forall i :: 0 <= i < |ws| ==> IsToken(ws[i], isSep)
    decreases |s|
  {
    if s == [] then []
    else if isSep(s[0]) then Tokens(s[1..], isSep)
    else
      var n := RunLength(s, isSep);
      [s[..n]] + Tokens(s[n..], isSep)
  }

  /** `str::split_whitespace`. */
  function Words(s: string): (ws: seq<string>)
    ensures forall i :: 0 <= i < |ws| ==> IsToken(ws[i], IsSpace)
  {
    Tokens(s, IsSpace)
  }

  /** The run length of a token followed by a separator (or nothing) is the token's length. */
  lemma RunLengthOfToken(w: string, rest: string, isSep: char -> bool)
    requires Unbroken(w, isSep)
    requires rest == [] || isSep(rest[0])
    ensures RunLength(w + rest, isSep) == |w|
  {
    var s := w + rest;
    assert forall i :: 0 <= i < |w| ==> s[i] == w[i];
    assert |w| < |s| ==> s[|w|] == rest[0];
  }

  /** Leading separators are skipped. */
  lemma {:induction false} TokensSkipSeparators(s: string, rest: string, isSep: char -> bool)
    requires AllSeparators(s, isSep)
    ensures Tokens(s + rest, isSep) == Tokens(rest, isSep)
    decreases |s|
  {
    if s != [] {
      assert (s + rest)[0] == s[0];
      assert (s + rest)[1..] == s[1..] + rest;
      TokensSkipSeparators(s[1..], rest, isSep);
    } else {
      assert s + rest == rest;
    }
  }

  /** A token followed by a separator is split off as the first token. */
  lemma TokensCons(w: string, c: char, rest: string, isSep: char -> bool)
    requires IsToken(w, isSep) && isSep(c)
    ensures Tokens(w + [c] + rest, isSep) == [w] + Tokens(rest, isSep)
  {
    var s := w + [c] + rest;
    assert s == w + ([c] + rest);
    RunLengthOfToken(w, [c] + rest, isSep);
    assert s[..|w|] == w;
    assert s[|w|..] == [c] + rest;
    TokensSkipSeparators([c], rest, isSep);
  }

  /** A lone token is its own single token. */
  lemma TokensOfToken(w: string, isSep: char -> bool)
    requires IsToken(w, isSep)
    ensures Tokens(w, isSep) == [w]
  {
    RunLengthOfToken(w, [], isSep);
    assert w + [] == w;
    assert w[|w|..] == [];
  }

  /** A string has no tokens exactly when it is made of separators only. */
  lemma {:induction false} NoTokensIffSeparators(s: string, isSep: char -> bool)
    ensures Tokens(s, isSep) == [] <==> AllSeparators(s, isSep)
    decreases |s|
  {
    if s != [] && isSep(s[0]) {
      NoTokensIffSeparators(s[1..], isSep);
      if !AllSeparators(s, isSep) {
        var i :| 0 <= i < |s| && !isSep(s[i]);
        assert s[1..][i - 1] == s[i];
      }
    }
  }

}
