/** The flat token string and the delimiter arithmetic every address kind is
    built on: counting the ':' delimiters, the depth predicates derived from
    the count, and locating the n-th delimiter. */
module Tokens {

  /** A token is an immutable string. Each character stands for one byte of
      the Go string; the delimiter is ASCII, so counts and indices agree. */
  type Token = string

  /** The character delimiting the parts of a qualified token. */
  const TokenDelimiter: char := ':'

  /** The number of delimiters in `tok` (strings.Count with a one-character
      separator). */
  function Delimiters(tok: Token): (c: nat)
    ensures c <= |tok|
  {
    if tok == [] then 0
    else (if tok[0] == TokenDelimiter then 1 else 0) + Delimiters(tok[1..])
  }

  /** A token has no delimiters exactly when no character of it is ':'. */
  lemma {:induction false} NoDelimiters(tok: Token)
    ensures Delimiters(tok) == 0 <==> TokenDelimiter !in tok
  {
    if tok != [] {
      assert tok == [tok[0]] + tok[1..];
      NoDelimiters(tok[1..]);
    }
  }

  predicate HasModule(tok: Token) { Delimiters(tok) > 0 }

  predicate HasModuleMember(tok: Token) { Delimiters(tok) > 1 }

  predicate HasClassMember(tok: Token) { Delimiters(tok) > 2 }

  predicate Simple(tok: Token) { Delimiters(tok) == 0 }

  /** The depth predicates are thresholds on one count, so they nest, and a
      simple token is exactly one without a module part and without a ':'. */
  lemma {:induction false} DepthsNest(tok: Token)
    ensures Simple(tok) <==> !HasModule(tok)
    ensures Simple(tok) <==> TokenDelimiter !in tok
    ensures HasClassMember(tok) ==> HasModuleMember(tok)
    ensures HasModuleMember(tok) ==> HasModule(tok)
  {
    NoDelimiters(tok);
  }

  /** `Delimiters` agrees with an independent count: the multiplicity of ':'
      in the multiset of the token's characters. */
  lemma {:induction false} DelimitersCountsColons(tok: Token)
    ensures Delimiters(tok) == multiset(tok)[TokenDelimiter]
  {
    if tok != [] {
      assert tok == [tok[0]] + tok[1..];
      assert multiset(tok) == multiset([tok[0]]) + multiset(tok[1..]);
      DelimitersCountsColons(tok[1..]);
    }
  }

  /** Counting distributes over concatenation. */
  lemma {:induction false} DelimitersAppend(a: Token, b: Token)
    ensures Delimiters(a + b) == Delimiters(a) + Delimiters(b)
  {
    if a == [] {
      assert a + b == b;
    } else {
      assert (a + b)[1..] == a[1..] + b;
      DelimitersAppend(a[1..], b);
    }
  }

  /** Cutting a token at a delimiter splits its count around that delimiter. */
  lemma {:induction false} SplitAt(tok: Token, i: int)
    requires 0 <= i < |tok| && tok[i] == TokenDelimiter
    ensures tok == tok[..i] + [TokenDelimiter] + tok[i + 1..]
    ensures Delimiters(tok) == Delimiters(tok[..i]) + 1 + Delimiters(tok[i + 1..])
  {
    var pre, post := tok[..i], tok[i + 1..];
    assert tok == pre + [TokenDelimiter] + post;
    assert Delimiters([TokenDelimiter]) == 1 by {
      assert [TokenDelimiter][1..] == [];
    }
    DelimitersAppend(pre + [TokenDelimiter], post);
    DelimitersAppend(pre, [TokenDelimiter]);
  }

  /** A delimiter strictly inside a prefix raises the count of that prefix
      above the count before the delimiter. */
  lemma {:induction false} DelimitersGrow(tok: Token, j: int, i: int)
    requires 0 <= j < i <= |tok| && tok[j] == TokenDelimiter
    ensures Delimiters(tok[..i]) >= Delimiters(tok[..j]) + 1
  {
    assert tok[..i] == tok[..j] + tok[j..i];
    DelimitersAppend(tok[..j], tok[j..i]);
    assert tok[j..i][0] == TokenDelimiter;
  }

  /** The index of the first `c` in `s`, or -1 (strings.Index with a
      one-character separator). */
  function IndexOf(s: string, c: char): (r: int)
    ensures r == -1 <==> c !in s
    ensures r != -1 ==> 0 <= r < |s| && s[r] == c && c !in s[..r]
  {
    if s == [] then -1
    else if s[0] == c then 0
    else
      var k := IndexOf(s[1..], c);
      if k == -1 then -1
      else
        assert s[..1 + k] == [s[0]] + s[1..][..k];
        1 + k
  }

  /** The index of the n-th delimiter (counting from 1): the unique position
      holding a delimiter with exactly n - 1 delimiters before it. */
  function NthDelimiter(tok: Token, n: nat): (i: nat)
    requires 1 <= n <= Delimiters(tok)
    ensures i < |tok| && tok[i] == TokenDelimiter
    ensures Delimiters(tok[..i]) == n - 1
    decreases |tok|
  {
    if tok[0] == TokenDelimiter && n == 1 then
      assert tok[..0] == [];
      0
    else
      var j := NthDelimiter(tok[1..], if tok[0] == TokenDelimiter then n - 1 else n);
      assert tok[..1 + j][1..] == tok[1..][..j];
      1 + j
  }

  /** A delimiter preceded by n - 1 delimiters is the n-th one, and it exists. */
  lemma {:induction false} NthDelimiterUnique(tok: Token, n: nat, i: nat)
    requires 1 <= n && i < |tok| && tok[i] == TokenDelimiter
    requires Delimiters(tok[..i]) == n - 1
    ensures n <= Delimiters(tok) && NthDelimiter(tok, n) == i
  {
    SplitAt(tok, i);
    var j := NthDelimiter(tok, n);
    if j < i {
      DelimitersGrow(tok, j, i);
    } else if i < j {
      DelimitersGrow(tok, i, j);
    }
  }

  /** After the last delimiter there is none; and the token ends in a
      delimiter exactly when that last delimiter is its final character. */
  lemma {:induction false} LastDelimiter(tok: Token)
    requires Delimiters(tok) > 0
    ensures var i := NthDelimiter(tok, Delimiters(tok));
      && TokenDelimiter !in tok[i + 1..]
      && (tok[|tok| - 1] == TokenDelimiter <==> i == |tok| - 1)
  {
    var i := NthDelimiter(tok, Delimiters(tok));
    SplitAt(tok, i);
    NoDelimiters(tok[i + 1..]);
    if i < |tok| - 1 {
      assert tok[|tok| - 1] == tok[i + 1..][|tok| - 2 - i];
    }
  }

  /** What `delimiter(n)` answers. For 1 <= n <= Delimiters(tok) it is the
      index of the n-th delimiter. For n <= 0, or a token without delimiters,
      it is -1. For n beyond the count it is NOT always -1: it is the index of
      the last delimiter, unless that delimiter ends the token. */
  function Delimiter(tok: Token, n: int): (ix: int)
    ensures 1 <= n <= Delimiters(tok) ==>
      && 0 <= ix < |tok| && tok[ix] == TokenDelimiter
      && Delimiters(tok[..ix]) == n - 1
    ensures n <= 0 || Delimiters(tok) == 0 ==> ix == -1
    ensures n > Delimiters(tok) > 0 ==>
      && (ix == -1 <==> tok[|tok| - 1] == TokenDelimiter)
      && (ix != -1 ==> 0 <= ix < |tok| && tok[ix] == TokenDelimiter && TokenDelimiter !in tok[ix + 1..])
  {
    if n <= 0 || Delimiters(tok) == 0 then -1
    else if n <= Delimiters(tok) then NthDelimiter(tok, n)
    else
      LastDelimiter(tok);
      if tok[|tok| - 1] == TokenDelimiter then -1 else NthDelimiter(tok, Delimiters(tok))
  }

  /** Appending a delimiter and a delimiter-free leaf to a parent adds one
      delimiter, and that delimiter sits right after the parent. */
  lemma {:induction false} AppendLeaf(parent: Token, leaf: string)
    requires TokenDelimiter !in leaf
    ensures var tok := parent + [TokenDelimiter] + leaf;
      && Delimiters(tok) == Delimiters(parent) + 1
      && Delimiter(tok, Delimiters(parent) + 1) == |parent|
      && tok[..|parent|] == parent
      && tok[|parent| + 1..] == leaf
  {
    var tok := parent + [TokenDelimiter] + leaf;
    assert tok[..|parent|] == parent;
    assert tok[|parent| + 1..] == leaf;
    NoDelimiters(leaf);
    SplitAt(tok, |parent|);
    NthDelimiterUnique(tok, Delimiters(parent) + 1, |parent|);
  }

  /** Joining a parent and a leaf with one delimiter adds their counts and one. */
  lemma {:induction false} DelimitersJoin(parent: Token, leaf: string)
    ensures Delimiters(parent + [TokenDelimiter] + leaf) == Delimiters(parent) + 1 + Delimiters(leaf)
  {
    DelimitersAppend(parent + [TokenDelimiter], leaf);
    DelimitersAppend(parent, [TokenDelimiter]);
    assert [TokenDelimiter][1..] == [];
  }

  /** Asked for more delimiters than there are, `delimiter` answers with the
      last one found, or -1 when that delimiter ends the token. */
  lemma {:induction false} DelimiterBeyondCount()
    ensures Delimiter("a:b", 1) == 1 && Delimiter("a:b", 2) == 1
    ensures Delimiter("a:", 2) == -1
  {
  }

  /** The n-th delimiter of a prefix is the n-th delimiter of the whole token. */
  lemma {:induction false} DelimiterInPrefix(tok: Token, p: int, n: int)
    requires 0 <= p <= |tok| && 1 <= n <= Delimiters(tok[..p])
    ensures n <= Delimiters(tok) && Delimiter(tok[..p], n) == Delimiter(tok, n)
  {
    var i := NthDelimiter(tok[..p], n);
    assert tok[..p][..i] == tok[..i];
    NthDelimiterUnique(tok, n, i);
  }

  /** The scan state of `delimiter`: `found` delimiters seen, the last at `ix`
      (-1 before the first). */
  ghost predicate Scanned(tok: Token, found: nat, ix: int) {
    if found == 0 then ix == -1
    else found <= Delimiters(tok) && ix == NthDelimiter(tok, found)
  }

  /** Everything the scan has not yet looked at holds the remaining delimiters. */
  lemma {:induction false} ScannedRest(tok: Token, found: nat, ix: int)
    requires Scanned(tok, found, ix)
    ensures -1 <= ix < |tok|
    ensures Delimiters(tok) == found + Delimiters(tok[ix + 1..])
  {
    if found == 0 {
      assert tok[ix + 1..] == tok;
    } else {
      SplitAt(tok, ix);
    }
  }

  /** Taking a delimiter into a prefix adds one to its count. */
  lemma {:induction false} DelimitersThrough(tok: Token, i: int)
    requires 0 <= i < |tok| && tok[i] == TokenDelimiter
    ensures Delimiters(tok[..i + 1]) == Delimiters(tok[..i]) + 1
  {
    var pre := tok[..i + 1];
    SplitAt(pre, i);
    assert pre[..i] == tok[..i];
    assert pre[i + 1..] == [];
  }

  /** The characters between the found-th delimiter and the next one add no
      delimiter to the count. */
  lemma {:induction false} ScanGap(tok: Token, found: nat, ix: int, nix: int)
    requires Scanned(tok, found, ix) && ix + 1 < |tok|
    requires 0 <= nix < |tok| - ix - 1 && TokenDelimiter !in tok[ix + 1..][..nix]
    ensures Delimiters(tok[..ix + 1 + nix]) == found
  {
    var gap := tok[ix + 1..][..nix];
    NoDelimiters(gap);
    assert tok[..ix + 1 + nix] == tok[..ix + 1] + gap;
    DelimitersAppend(tok[..ix + 1], gap);
    if found == 0 {
      assert tok[..ix + 1] == [];
    } else {
      DelimitersThrough(tok, ix);
    }
  }

  /** One step of the scan: the first delimiter after the found-th one is the
      (found + 1)-th. */
  lemma {:induction false} ScanStep(tok: Token, found: nat, ix: int, nix: int)
    requires Scanned(tok, found, ix) && ix + 1 < |tok|
    requires 0 <= nix < |tok| - ix - 1 && TokenDelimiter !in tok[ix + 1..][..nix]
    requires tok[ix + 1 + nix] == TokenDelimiter
    ensures Scanned(tok, found + 1, ix + 1 + nix)
  {
    ScanGap(tok, found, ix, nix);
    NthDelimiterUnique(tok, found + 1, ix + 1 + nix);
  }

  /** The scan runs out of characters before finding the n-th delimiter:
      the token is empty or its last delimiter ends it, and the answer is -1. */
  lemma {:induction false} ScanExhausted(tok: Token, found: nat, ix: int, n: int)
    requires Scanned(tok, found, ix) && found < n && ix + 1 >= |tok|
    ensures Delimiter(tok, n) == -1
  {
    ScannedRest(tok, found, ix);
    assert tok[ix + 1..] == [];
  }

  /** No delimiter follows the found-th one: the answer is the index of the
      last delimiter found, or -1 if none was. */
  lemma {:induction false} ScanNoMore(tok: Token, found: nat, ix: int, n: int)
    requires Scanned(tok, found, ix) && found < n && ix + 1 < |tok|
    requires TokenDelimiter !in tok[ix + 1..]
    ensures Delimiter(tok, n) == ix
  {
    ScannedRest(tok, found, ix);
    NoDelimiters(tok[ix + 1..]);
    assert tok[|tok| - 1] == tok[ix + 1..][|tok| - 2 - ix];
  }

  /** The scan found all n delimiters it was asked for (or was asked for
      none): the answer is the last index found. */
  lemma {:induction false} ScanComplete(tok: Token, found: nat, ix: int, n: int)
    requires Scanned(tok, found, ix) && (found == n || (found == 0 && n <= 0))
    ensures Delimiter(tok, n) == ix
  {
  }

  /** The loop of `delimiter`: scan forward from just after the previous
      delimiter, giving up with -1 when no character is left and keeping the
      last index found when no further delimiter follows. */
  method FindDelimiter(tok: Token, n: int) returns (ix: int)
    ensures ix == Delimiter(tok, n)
  {
    ix := -1;
    var k := n;
    ghost var found: nat := 0;
    while k > 0
      invariant found == 0 || 0 <= k
      invariant found + k == n
      invariant Scanned(tok, found, ix)
      decreases k
    {
      // Nothing left after ix: ScanExhausted gives -1.
      if ix + 1 >= |tok| {
        ScanExhausted(tok, found, ix, n);
        ix := -1;
        break;
      }
      // The first ':' after ix, if any, is delimiter number found + 1 (ScanStep);
      // with none left, ix is the answer (ScanNoMore).
      var rest := tok[ix + 1..];
      var nix := IndexOf(rest, TokenDelimiter);
      if nix == -1 {
        ScanNoMore(tok, found, ix, n);
        break;
      }
      assert tok[ix + 1 + nix] == rest[nix];
      ScanStep(tok, found, ix, nix);
      ix := ix + 1 + nix;
      k := k - 1;
      found := found + 1;
    }
    if k <= 0 {  // the loop ran to completion rather than breaking
      ScanComplete(tok, found, ix, n);
    }
  }
}
