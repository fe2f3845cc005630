/** Scanning forward through a text; shared by the two lexers. */
module TextScan {
  import opened Common

  type Text = seq<char>

  predicate Starts(t: Text, a: char, b: char) {
    |t| >= 2 && t[0] == a && t[1] == b
  }

  /** Length of the longest prefix whose characters all satisfy p. */
  function Run(t: Text, p: char -> bool): (n: nat)
    ensures n <= |t|
    ensures forall k | 0 <= k < n :: p(t[k])
    ensures n < |t| ==> !p(t[n])
  {
    if t == [] || !p(t[0]) then 0 else 1 + Run(t[1..], p)
  }

  lemma RunIs(t: Text, p: char -> bool, n: nat)
    requires n <= |t| && (n < |t| ==> !p(t[n])) && forall k | 0 <= k < n :: p(t[k])
    ensures Run(t, p) == n
  {
  }

  /** Position of the first occurrence of `word`. */
  function Find(t: Text, word: Text): (r: Option<nat>)
    ensures r.Some? ==> r.value + |word| <= |t| && t[r.value..][..|word|] == word
  {
    if word <= t then Some(0)
    else if t == [] then None
    else match Find(t[1..], word)
         case None => None
         case Some(j) => Some(j + 1)
  }

  /** No occurrence comes before the one that is found. */
  lemma {:induction false} FindFirst(t: Text, word: Text, k: nat)
    requires k <= |t| && word <= t[k..]
    ensures Find(t, word).Some? && Find(t, word).value <= k
  {
    if !(word <= t) {
      assert t[1..][k - 1..] == t[k..];
      FindFirst(t[1..], word, k - 1);
    }
  }

  /** The first occurrence of a character is behind a text without it, ... */
  lemma {:induction false} FindOne(body: Text, c: char, rest: Text)
    requires c !in body
    ensures Find(body + ([c] + rest), [c]) == Some(|body|)
    ensures Find(body, [c]) == None
    decreases |body|
  {
    var t := body + ([c] + rest);
    if body == [] {
      assert [c] <= t;
    } else {
      assert t[0] == body[0] && body[0] in body && t[1..] == body[1..] + ([c] + rest);
      FindOne(body[1..], c, rest);
    }
  }

  /** ... and there is none before it. */
  lemma NoneBefore(t: Text, c: char, n: nat)
    requires n <= |t| && (Find(t, [c]).Some? ==> n <= Find(t, [c]).value)
    ensures c !in t[..n]
  {
    forall k | 0 <= k < n
      ensures t[..n][k] != c
    {
      if t[k] == c {
        assert [c] <= t[k..];
        FindFirst(t, [c], k);
      }
    }
  }

  lemma Halves(t: Text, n: nat)
    requires n <= |t|
    ensures t[..n] + t[n..] == t
  {
  }

  lemma Behind(s: Text, i: nat, d: nat)
    requires i + d <= |s|
    ensures s[i..][d..] == s[i + d..]
  {
  }

  lemma Slices(s: Text, i: nat, end: nat)
    requires i <= end <= |s|
    ensures s[i..][..end - i] == s[i..end] && s[i..][end - i..] == s[end..]
  {
  }

  predicate Prefix(t: Text, w: Text) {
    |w| <= |t| && forall k | 0 <= k < |w| :: w[k] == t[k]
  }

  /** The first occurrence is found in any prefix that holds it, ... */
  lemma {:induction false} FindPrefix(t: Text, w: Text, word: Text)
    requires Prefix(t, w) && Find(t, word).Some? && Find(t, word).value + |word| <= |w|
    ensures Find(w, word) == Find(t, word)
    decreases |t|
  {
    assert w[..|word|] == t[..|word|];
    if !(word <= t) {
      FindPrefix(t[1..], w[1..], word);
    }
  }

  /** ... and from a prefix in the whole. */
  lemma {:induction false} FindGrows(t: Text, w: Text, word: Text)
    requires Prefix(t, w) && Find(w, word).Some?
    ensures Find(t, word) == Find(w, word)
    decreases |t|
  {
    assert |word| <= |w|;
    assert w[..|word|] == t[..|word|];
    if !(word <= w) {
      FindGrows(t[1..], w[1..], word);
    }
  }
}
