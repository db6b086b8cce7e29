/** Python's `str.strip()` with no argument, on strings of Unicode code points. */
module Text {

  /** `str.isspace()` for one character: the characters Python's `strip()` removes. */
  predicate IsSpace(c: char) {
    c == ' ' || ('\t' <= c <= '\r') || ('\U{1C}' <= c <= '\U{1F}') || c == '\U{85}' || c == '\U{A0}'
    || c == '\U{1680}' || ('\U{2000}' <= c <= '\U{200A}') || c == '\U{2028}' || c == '\U{2029}'
    || c == '\U{202F}' || c == '\U{205F}' || c == '\U{3000}'
  }

  predicate AllSpace(s: string) {
    forall i :: 0 <= i < |s| ==> IsSpace(s[i])
  }

  /** Neither begins nor ends with whitespace (the empty string included). */
  predicate Trimmed(s: string) {
    s == [] || (!IsSpace(s[0]) && !IsSpace(s[|s| - 1]))
  }

  /** `lstrip()`: the suffix that remains after the leading whitespace. */
  function TrimLeft(s: string): (r: string)
    ensures |r| <= |s| && r == s[|s| - |r|..]
    ensures AllSpace(s[..|s| - |r|])
    ensures r == [] || !IsSpace(r[0])
  {
    if s != [] && IsSpace(s[0]) then TrimLeft(s[1..]) else s
  }

  /** `rstrip()`: the prefix that remains before the trailing whitespace. */
  function TrimRight(s: string): (r: string)
    ensures |r| <= |s| && r == s[..|r|]
    ensures AllSpace(s[|r|..])
    ensures r == [] || !IsSpace(r[|r| - 1])
  {
    if s != [] && IsSpace(s[|s| - 1]) then
      var init := s[..|s| - 1];
      var r := TrimRight(init);
      assert init[..|r|] == s[..|r|];
      assert forall i :: |r| <= i < |s| - 1 ==> s[i] == init[|r|..][i - |r|];
      r
    else s
  }

  /** `strip()`: the result has no whitespace at either end, and is empty exactly when the
      input is all whitespace. */
  function Strip(s: string): (r: string)
    ensures Trimmed(r)
    ensures r == [] <==> AllSpace(s)
  {
    StripFacts(s);
    TrimRight(TrimLeft(s))
  }

  lemma StripFacts(s: string)
    ensures Trimmed(TrimRight(TrimLeft(s)))
    ensures TrimRight(TrimLeft(s)) == [] <==> AllSpace(s)
  {
    var l := TrimLeft(s);
    var r := TrimRight(l);
    var k := |s| - |l|;
    if r != [] {
      assert r[0] == l[0];
      assert s[k] == l[0];
    } else {
      assert AllSpace(l) by {
        assert l[|r|..] == l;
      }
      // a non-empty `l` would start with a non-space
      assert l == [];
      assert s[..k] == s;
    }
  }

  lemma {:induction false} TrimLeftSkipsSpace(pre: string, rest: string)
    requires AllSpace(pre)
    ensures TrimLeft(pre + rest) == TrimLeft(rest)
  {
    if pre != [] {
      var s := pre + rest;
      assert s[0] == pre[0] && IsSpace(pre[0]);
      assert s[1..] == pre[1..] + rest;
      assert AllSpace(pre[1..]);
      TrimLeftSkipsSpace(pre[1..], rest);
    } else {
      assert pre + rest == rest;
    }
  }

  lemma {:induction false} TrimRightSkipsSpace(rest: string, post: string)
    requires AllSpace(post)
    ensures TrimRight(rest + post) == TrimRight(rest)
  {
    if post != [] {
      var n := |post| - 1;
      var s := rest + post;
      assert s[|s| - 1] == post[n] && IsSpace(post[n]);
      assert s[..|s| - 1] == rest + post[..n];
      assert AllSpace(post[..n]);
      TrimRightSkipsSpace(rest, post[..n]);
    } else {
      assert rest + post == rest;
    }
  }

  /** `strip()` is characterised by what it returns: surrounding a trimmed string with any
      whitespace and stripping gives the string back. */
  lemma StripOfPadded(pre: string, core: string, post: string)
    requires AllSpace(pre) && AllSpace(post) && Trimmed(core)
    ensures Strip(pre + core + post) == core
  {
    assert pre + core + post == pre + (core + post);
    TrimLeftSkipsSpace(pre, core + post);
    if core == [] {
      assert core + post == post;
      TrimLeftSkipsSpace(post, []);
      assert post + [] == post;
    } else {
      TrimRightSkipsSpace(core, post);
    }
  }

  /** Stripping twice is stripping once. */
  lemma StripIdempotent(s: string)
    ensures Strip(Strip(s)) == Strip(s)
  {
  }
}
