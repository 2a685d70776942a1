/**
 * A model of Rust's `str::split_whitespace`: the string is cut at every run of
 * characters that `char::is_whitespace` accepts, and the non-empty pieces
 * between those runs are produced in order.
 *
 * `Tokens` is the whole answer as a value; `SplitWhitespace` is the iterator
 * the deserialiser actually advances one `next()` at a time, proved to hand out
 * exactly the elements of `Tokens`.
 */
module Whitespace {
  import opened Wrappers

  /** Rust's `char::is_whitespace`: the Unicode White_Space property. */
  predicate IsWhitespace(c: char)
  {
    || ('\t' <= c <= '\r')
    || c == ' '
    || c == '\U{0085}'
    || c == '\U{00A0}'
    || c == '\U{1680}'
    || ('\U{2000}' <= c <= '\U{200A}')
    || c == '\U{2028}'
    || c == '\U{2029}'
    || c == '\U{202F}'
    || c == '\U{205F}'
    || c == '\U{3000}'
  }

  predicate NoWhitespace(s: string)
  {
    forall i :: 0 <= i < |s| ==> !IsWhitespace(s[i])
  }

  predicate AllWhitespace(s: string)
  {
    forall i :: 0 <= i < |s| ==> IsWhitespace(s[i])
  }

  /** A word is what `split_whitespace` can produce: non-empty, no whitespace. */
  predicate IsWord(s: string)
  {
    s != [] && NoWhitespace(s)
  }

  /** The length of the run of non-whitespace characters at the start of `s`. */
  function WordLength(s: string): (n: nat)
    ensures n <= |s|
    ensures NoWhitespace(s[..n])
    ensures n == |s| || IsWhitespace(s[n])
  {
    if s == [] || IsWhitespace(s[0]) then 0
    else
      var n := 1 + WordLength(s[1..]);
      assert s[..n] == [s[0]] + s[1..][..n - 1];
      n
  }

  /** All tokens of `s`, in order: the value `s.split_whitespace().collect()` would give. */
  function Tokens(s: string): seq<string>
    decreases |s|
  {
    if s == [] then []
    else if IsWhitespace(s[0]) then Tokens(s[1..])
    else
      var n := WordLength(s);
      [s[..n]] + Tokens(s[n..])
  }

  /** Every token is a word: non-empty and free of whitespace. */
  lemma {:induction false} TokensAreWords(s: string)
    ensures forall i :: 0 <= i < |Tokens(s)| ==> IsWord(Tokens(s)[i])
    decreases |s|
  {
    if s == [] {
    } else if IsWhitespace(s[0]) {
      TokensAreWords(s[1..]);
    } else {
      var n := WordLength(s);
      TokensAreWords(s[n..]);
      assert Tokens(s) == [s[..n]] + Tokens(s[n..]);
    }
  }

  /** The tokens joined back together with `sep` between neighbours. */
  function Join(ts: seq<string>, sep: string): (s: string)
  {
    if ts == [] then []
    else if |ts| == 1 then ts[0]
    else ts[0] + sep + Join(ts[1..], sep)
  }

  /** Whitespace in front of a string adds no token. */
  lemma {:induction false} TokensSkipWhitespace(w: string, s: string)
    requires AllWhitespace(w)
    ensures Tokens(w + s) == Tokens(s)
    decreases |w|
  {
    if w != [] {
      assert (w + s)[0] == w[0] && IsWhitespace(w[0]);
      assert (w + s)[1..] == w[1..] + s;
      TokensSkipWhitespace(w[1..], s);
    } else {
      assert w + s == s;
    }
  }

  /** A string made of whitespace only has no tokens. */
  lemma BlankHasNoTokens(w: string)
    requires AllWhitespace(w)
    ensures Tokens(w) == []
  {
    TokensSkipWhitespace(w, []);
    assert w + [] == w;
  }

  /** Appending text behind a word that already ends does not lengthen it. */
  lemma {:induction false} WordLengthAppend(a: string, x: string)
    requires WordLength(a) < |a| || x == [] || IsWhitespace(x[0])
    ensures WordLength(a + x) == WordLength(a)
    decreases |a|
  {
    if a != [] && !IsWhitespace(a[0]) {
      assert (a + x)[1..] == a[1..] + x;
      WordLengthAppend(a[1..], x);
    }
  }

  /** A word splits into exactly itself. */
  lemma {:induction false} TokensOfWord(s: string)
    requires IsWord(s)
    ensures Tokens(s) == [s]
  {
    WordLengthOfWord(s);
    assert s[..|s|] == s;
    assert s[|s|..] == [];
  }

  lemma {:induction false} WordLengthOfWord(s: string)
    requires NoWhitespace(s)
    ensures WordLength(s) == |s|
    decreases |s|
  {
    if s != [] {
      WordLengthOfWord(s[1..]);
    }
  }

  /**
   * A non-empty run of whitespace separates: the tokens on either side of it
   * are the tokens of each side. This is why leading, trailing and repeated
   * whitespace is tolerated.
   */
  lemma {:induction false} TokensSplitAtWhitespace(a: string, w: string, b: string)
    requires w != [] && AllWhitespace(w)
    ensures Tokens(a + w + b) == Tokens(a) + Tokens(b)
    decreases |a|
  {
    var x := a + w + b;
    if a == [] {
      assert x == w + b;
      TokensSkipWhitespace(w, b);
    } else if IsWhitespace(a[0]) {
      assert x[0] == a[0] && x[1..] == a[1..] + w + b;
      TokensSplitAtWhitespace(a[1..], w, b);
    } else {
      var n := WordLength(a);
      assert x == a + (w + b);
      WordLengthAppend(a, w + b);
      WordThenRest(a, w + b);
      assert x[n..] == a[n..] + w + b;
      TokensSplitAtWhitespace(a[n..], w, b);
      assert Tokens(a) == [a[..n]] + Tokens(a[n..]);
    }
  }

  /** The first word of `a`, when `a` starts with one, is also the first word of `a + y` if it ends inside `a`. */
  lemma WordThenRest(a: string, y: string)
    requires a != [] && !IsWhitespace(a[0])
    requires WordLength(a + y) == WordLength(a)
    ensures Tokens(a + y) == [a[..WordLength(a)]] + Tokens(a[WordLength(a)..] + y)
  {
    var n := WordLength(a);
    assert (a + y)[0] == a[0];
    assert (a + y)[..n] == a[..n];
    assert (a + y)[n..] == a[n..] + y;
  }

  /** `split_whitespace` undoes a join of words with a whitespace separator. */
  lemma {:induction false} TokensOfJoin(ts: seq<string>, sep: string)
    requires forall i :: 0 <= i < |ts| ==> IsWord(ts[i])
    requires sep != [] && AllWhitespace(sep)
    ensures Tokens(Join(ts, sep)) == ts
    decreases |ts|
  {
    if ts == [] {
    } else if |ts| == 1 {
      TokensOfWord(ts[0]);
    } else {
      TokensOfJoin(ts[1..], sep);
      TokensOfWord(ts[0]);
      TokensSplitAtWhitespace(ts[0], sep, Join(ts[1..], sep));
      assert ts == [ts[0]] + ts[1..];
    }
  }

  /**
   * Two words with whitespace before, between and after them: they are the
   * first two tokens, whatever follows the whitespace after the second.
   */
  lemma FirstTwoTokens(lead: string, first: string, gap: string, second: string, tail: string, rest: string)
    requires AllWhitespace(lead) && IsWord(first) && IsWord(second)
    requires gap != [] && AllWhitespace(gap)
    requires AllWhitespace(tail) && (tail == [] ==> rest == [])
    ensures |Tokens(lead + first + gap + second + tail + rest)| >= 2
    ensures Tokens(lead + first + gap + second + tail + rest)[0] == first
    ensures Tokens(lead + first + gap + second + tail + rest)[1] == second
  {
    var back := second + tail + rest;
    var backTokens := Tokens(back);
    if tail == [] {
      assert back == second;
      TokensOfWord(second);
    } else {
      TokensOfWord(second);
      TokensSplitAtWhitespace(second, tail, rest);
    }
    assert |backTokens| >= 1 && backTokens[0] == second;
    var front := first + gap + back;
    TokensOfWord(first);
    TokensSplitAtWhitespace(first, gap, back);
    assert Tokens(front) == [first] + backTokens;
    assert lead + first + gap + second + tail + rest == lead + front;
    TokensSkipWhitespace(lead, front);
  }

  /** When the next word of `s` spans `n` characters, it is the first token. */
  lemma FirstToken(s: string, n: nat)
    requires 0 < n <= |s|
    requires NoWhitespace(s[..n])
    requires n == |s| || IsWhitespace(s[n])
    ensures Tokens(s) == [s[..n]] + Tokens(s[n..])
  {
    assert !IsWhitespace(s[..n][0]);
    WordLengthAppend(s[..n], s[n..]);
    WordLengthOfWord(s[..n]);
    assert s[..n] + s[n..] == s;
  }

  /** A whitespace character at `i` adds no token to what follows it. */
  lemma TokensFromBlank(s: string, i: nat)
    requires i < |s| && IsWhitespace(s[i])
    ensures Tokens(s[i..]) == Tokens(s[i + 1..])
  {
    assert s[i..] == [s[i]] + s[i + 1..];
    TokensSkipWhitespace([s[i]], s[i + 1..]);
  }

  /** The word `s[start..end]`, followed by whitespace or the end, is the first token from `start`. */
  lemma TokensFromWord(s: string, start: nat, end: nat)
    requires start < end <= |s|
    requires forall k :: start <= k < end ==> !IsWhitespace(s[k])
    requires end == |s| || IsWhitespace(s[end])
    ensures Tokens(s[start..]) == [s[start..end]] + Tokens(s[end..])
  {
    var rest := s[start..];
    assert rest[..end - start] == s[start..end];
    assert rest[end - start..] == s[end..];
    FirstToken(rest, end - start);
  }

  /** The position of the first non-whitespace character at or after `from`, or the end. */
  method SkipWhitespace(s: string, from: nat) returns (i: nat)
    requires from <= |s|
    ensures from <= i <= |s|
    ensures i == |s| || !IsWhitespace(s[i])
    ensures Tokens(s[i..]) == Tokens(s[from..])
  {
    i := from;
    while i < |s| && IsWhitespace(s[i])
      invariant from <= i <= |s|
      invariant Tokens(s[i..]) == Tokens(s[from..])
      decreases |s| - i
    {
      TokensFromBlank(s, i);
      i := i + 1;
    }
  }

  /** The end of the word that starts at `start`: the next whitespace character, or the end. */
  method ScanWord(s: string, start: nat) returns (end: nat)
    requires start < |s| && !IsWhitespace(s[start])
    ensures start < end <= |s|
    ensures forall k :: start <= k < end ==> !IsWhitespace(s[k])
    ensures end == |s| || IsWhitespace(s[end])
  {
    end := start + 1;
    while end < |s| && !IsWhitespace(s[end])
      invariant start < end <= |s|
      invariant forall k :: start <= k < end ==> !IsWhitespace(s[k])
      decreases |s| - end
    {
      end := end + 1;
    }
  }

  /**
   * The iterator `str::split_whitespace` returns: it holds the string and a
   * cursor, and every `Next` hands out the next token and moves past it.
   */
  class SplitWhitespace {
    const source: string
    var pos: nat

    ghost predicate Valid()
      reads this
    {
      pos <= |source|
    }

    /** The tokens not yet handed out. */
    ghost function Remaining(): seq<string>
      reads this
      requires Valid()
    {
      Tokens(source[pos..])
    }

    constructor (s: string)
      ensures Valid() && source == s
      ensures Remaining() == Tokens(s)
    {
      source := s;
      pos := 0;
    }

    /** `Iterator::next`: the first remaining token, or `None` once they are used up. */
    method Next() returns (t: Option<string>)
      requires Valid()
      modifies this
      ensures Valid()
      ensures old(Remaining()) == [] ==> t == None && Remaining() == []
      ensures old(Remaining()) != [] ==>
                t == Some(old(Remaining())[0]) && Remaining() == old(Remaining())[1..]
    {
      var i := SkipWhitespace(source, pos);
      if i == |source| {
        pos := i;
        t := None;
        return;
      }
      var end := ScanWord(source, i);
      TokensFromWord(source, i, end);
      pos := end;
      t := Some(source[i..end]);
    }
  }
}
