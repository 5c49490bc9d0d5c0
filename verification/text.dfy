/**
 The string shaping applied to a changed page's text before it is reported:
 the page text is stripped of surrounding whitespace, its line breaks become
 spaces, and it is cut to 700 characters (monitor_unisa.py:98).
 Strings are sequences of Unicode scalar values. A Python `str` is a
 sequence of code points and may also hold lone surrogates, which a Dafny
 `char` cannot; such text is outside this model.
 */
module Text {

  /** The number of characters kept in a change snippet. */
  const SnippetLimit: nat := 700

  /** Python's `str.isspace()`: the characters `str.strip()` removes by default. */
  predicate IsSpace(c: char) {
    || ('\t' <= c <= '\r')
    || ('\U{1C}' <= c <= '\U{1F}')
    || c == ' '
    || c == '\U{85}'
    || c == '\U{A0}'
    || c == '\U{1680}'
    || ('\U{2000}' <= c <= '\U{200A}')
    || c == '\U{2028}'
    || c == '\U{2029}'
    || c == '\U{202F}'
    || c == '\U{205F}'
    || c == '\U{3000}'
  }

  predicate AllSpace(s: string) {
    forall i :: 0 <= i < |s| ==> IsSpace(s[i])
  }

  /** Python's `s.lstrip()`. */
  function TrimLeft(s: string): (r: string)
    ensures |r| <= |s|
    ensures r == s[|s| - |r|..]
    ensures forall i :: 0 <= i < |s| - |r| ==> IsSpace(s[i])
    ensures r == [] || !IsSpace(r[0])
  {
    if |s| > 0 && IsSpace(s[0]) then TrimLeft(s[1..]) else s
  }

  /** Python's `s.rstrip()`. */
  function TrimRight(s: string): (r: string)
    ensures |r| <= |s|
    ensures r == s[..|r|]
    ensures forall i :: |r| <= i < |s| ==> IsSpace(s[i])
    ensures r == [] || !IsSpace(r[|r| - 1])
  {
    if |s| > 0 && IsSpace(s[|s| - 1]) then TrimRight(s[..|s| - 1]) else s
  }

  /** Python's `s.strip()`: leading and trailing whitespace removed. */
  function Strip(s: string): (r: string)
    ensures r == [] || (!IsSpace(r[0]) && !IsSpace(r[|r| - 1]))
  {
    TrimRight(TrimLeft(s))
  }

  /** Leading whitespace is skipped by TrimLeft. */
  lemma {:induction false} TrimLeftSkips(pre: string, rest: string)
    requires AllSpace(pre)
    ensures TrimLeft(pre + rest) == TrimLeft(rest)
  {
    if pre == [] {
      assert pre + rest == rest;
    } else {
      assert (pre + rest)[0] == pre[0];
      assert (pre + rest)[1..] == pre[1..] + rest;
      TrimLeftSkips(pre[1..], rest);
    }
  }

  /** Trailing whitespace is skipped by TrimRight. */
  lemma {:induction false} TrimRightSkips(rest: string, post: string)
    requires AllSpace(post)
    ensures TrimRight(rest + post) == TrimRight(rest)
  {
    if post == [] {
      assert rest + post == rest;
    } else {
      var p := post[..|post| - 1];
      assert (rest + post)[|rest + post| - 1] == post[|post| - 1];
      assert (rest + post)[..|rest + post| - 1] == rest + p;
      TrimRightSkips(rest, p);
    }
  }

  /**
   Strip is the unique way to cut `s` into whitespace, a core that neither
   begins nor ends with whitespace, and whitespace.
   */
  lemma {:induction false} StripUnique(s: string, pre: string, core: string, post: string)
    requires s == pre + core + post
    requires AllSpace(pre) && AllSpace(post)
    requires core == [] || (!IsSpace(core[0]) && !IsSpace(core[|core| - 1]))
    ensures Strip(s) == core
  {
    var rest := core + post;
    assert s == pre + rest;
    TrimLeftSkips(pre, rest);
    if core == [] {
      assert rest == post + [];
      TrimLeftSkips(post, []);
      assert TrimLeft(s) == [];
    } else {
      assert rest[0] == core[0];
      assert TrimLeft(rest) == rest;
      TrimRightSkips(core, post);
      assert TrimRight(core) == core;
    }
  }

  /** Stripping an already stripped string changes nothing. */
  lemma {:induction false} StripIdempotent(s: string)
    ensures Strip(Strip(s)) == Strip(s)
  {
    var c := Strip(s);
    assert c == [] + c + [];
    StripUnique(c, [], c, []);
  }

  function Unbreak(c: char): char {
    if c == '\n' then ' ' else c
  }

  /** Python's `s.replace("\n", " ")`. */
  function Flatten(s: string): (r: string)
    ensures |r| == |s|
    ensures forall i :: 0 <= i < |s| ==> r[i] == Unbreak(s[i])
    ensures '\n' !in r
  {
    if s == [] then [] else [Unbreak(s[0])] + Flatten(s[1..])
  }

  /** Python's slice `s[:n]`: the first `n` characters, or all of them. */
  function Take(s: string, n: nat): (r: string)
    ensures |r| == if |s| <= n then |s| else n
    ensures r <= s
  {
    if |s| <= n then s else s[..n]
  }

  /**
   The snippet recorded for a changed page: at most 700 characters, no line
   breaks, no leading whitespace, and a prefix of the page's stripped text
   with line breaks turned into spaces.
   */
  function Snippet(content: string): (r: string)
    ensures |r| <= SnippetLimit
    ensures '\n' !in r
    ensures r == [] || !IsSpace(r[0])
    ensures r <= Flatten(Strip(content))
    ensures |r| == |Strip(content)| || |r| == SnippetLimit
  {
    var s := Flatten(Strip(content));
    var r := Take(s, SnippetLimit);
    assert r != [] ==> r[0] == s[0];
    r
  }

  /** A page whose stripped text fits in the limit is reported in full. */
  lemma {:induction false} ShortSnippetIsWhole(content: string)
    requires |Strip(content)| <= SnippetLimit
    ensures Snippet(content) == Flatten(Strip(content))
  {
  }

}
