/** Ordering of tokens by their string encoding, and the ByName sort adaptor
    that exposes a slice of tokens to a generic in-place sort. */
module Ordering {
  import opened Tokens

  /** Go's `<` on strings: lexicographic order of the characters (bytes),
      a proper prefix coming first. */
  predicate StringLess(a: Token, b: Token) {
    if a == [] then b != []
    else b != [] && (a[0] < b[0] || (a[0] == b[0] && StringLess(a[1..], b[1..])))
  }

  /** `a` and `b` agree before position k and differ there, `a` being smaller. */
  predicate FirstDifferenceAt(a: Token, b: Token, k: nat) {
    k < |a| && k < |b| && a[..k] == b[..k] && a[k] < b[k]
  }

  /** StringLess is the textbook lexicographic order: `a` is a proper prefix
      of `b`, or they first differ at a position where `a` is smaller. */
  lemma {:induction false} StringLessIsLexicographic(a: Token, b: Token)
    ensures StringLess(a, b) <==> a < b || exists k :: FirstDifferenceAt(a, b, k)
  {
    if a != [] && b != [] {
      StringLessIsLexicographic(a[1..], b[1..]);
      if StringLess(a, b) {
        if a[0] < b[0] {
          assert FirstDifferenceAt(a, b, 0);
        } else if a[1..] < b[1..] {
          assert a == [a[0]] + a[1..] && b == [b[0]] + b[1..];
        } else {
          var k: nat :| FirstDifferenceAt(a[1..], b[1..], k);
          assert a[..k + 1] == [a[0]] + a[1..][..k];
          assert b[..k + 1] == [b[0]] + b[1..][..k];
          assert FirstDifferenceAt(a, b, k + 1);
        }
      }
      if a < b {
        assert a[1..] < b[1..];
      }
      if k: nat :| FirstDifferenceAt(a, b, k) {
        if k > 0 {
          assert a[0] == a[..k][0] && b[0] == b[..k][0];
          assert a[1..][..k - 1] == a[..k][1..] && b[1..][..k - 1] == b[..k][1..];
          assert FirstDifferenceAt(a[1..], b[1..], k - 1);
        }
      }
    } else if a == [] {
      if b != [] {
        assert a < b;
      }
    }
  }

  /** No token is less than itself. */
  lemma {:induction false} StringLessIrreflexive(a: Token)
    ensures !StringLess(a, a)
  {
    if a != [] {
      StringLessIrreflexive(a[1..]);
    }
  }

  /** The order is transitive. */
  lemma {:induction false} StringLessTransitive(a: Token, b: Token, c: Token)
    requires StringLess(a, b) && StringLess(b, c)
    ensures StringLess(a, c)
  {
    if a != [] && a[0] == b[0] && b[0] == c[0] {
      StringLessTransitive(a[1..], b[1..], c[1..]);
    }
  }

  /** The order is asymmetric. */
  lemma {:induction false} StringLessAsymmetric(a: Token, b: Token)
    requires StringLess(a, b)
    ensures !StringLess(b, a)
  {
    if a != [] && a[0] == b[0] {
      StringLessAsymmetric(a[1..], b[1..]);
    }
  }

  /** Any two distinct tokens are ordered one way or the other, so the order
      is total and consistent with string equality. */
  lemma {:induction false} StringLessTotal(a: Token, b: Token)
    ensures a == b || StringLess(a, b) || StringLess(b, a)
  {
    if a != [] && b != [] && a[0] == b[0] {
      StringLessTotal(a[1..], b[1..]);
      if a[1..] == b[1..] {
        assert a == [a[0]] + a[1..] && b == [b[0]] + b[1..];
      }
    }
  }

  /** ByName: a slice of tokens, shared with the sort that permutes it. */
  class ByName {
    const tokens: array<Token>

    constructor (tokens: array<Token>)
      ensures this.tokens == tokens
    {
      this.tokens := tokens;
    }

    /** Less(i, j): the i-th token sorts strictly before the j-th in string
        order. A true answer rules out equal tokens and the reverse answer. */
    function Less(i: int, j: int): (b: bool)
      reads tokens
      requires 0 <= i < tokens.Length && 0 <= j < tokens.Length
      ensures b <==> StringLess(tokens[i], tokens[j])
      ensures b ==> tokens[i] != tokens[j] && !StringLess(tokens[j], tokens[i])
    {
      if StringLess(tokens[i], tokens[j]) then
        StringLessIrreflexive(tokens[i]);
        StringLessAsymmetric(tokens[i], tokens[j]);
        true
      else false
    }

    /** Swap(i, j): exchanges the i-th and j-th tokens in place and leaves
        every other position, and so the multiset of tokens, unchanged. */
    method Swap(i: int, j: int)
      requires 0 <= i < tokens.Length && 0 <= j < tokens.Length
      modifies tokens
      ensures tokens[i] == old(tokens[j]) && tokens[j] == old(tokens[i])
      ensures forall m :: 0 <= m < tokens.Length && m != i && m != j ==> tokens[m] == old(tokens[m])
      ensures multiset(tokens[..]) == old(multiset(tokens[..]))
    {
      tokens[i], tokens[j] := tokens[j], tokens[i];
    }
  }
}
