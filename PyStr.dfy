/** The Python `str` built-ins the RAG engine relies on: `strip`, `find`, `split`,
    `join` and `str()` of an integer, over strings as sequences of code points. */
module PyStr {
  import opened Wrappers

  /** The characters for which Python's `str.isspace()` holds; `str.strip()` with no
      argument removes exactly these from both ends. */
  const Whitespace: set<char> := {
    '\t', '\n', '\U{0B}', '\U{0C}', '\r', '\U{1C}', '\U{1D}', '\U{1E}', '\U{1F}', ' ',
    '\U{85}', '\U{A0}', '\U{1680}',
    '\U{2000}', '\U{2001}', '\U{2002}', '\U{2003}', '\U{2004}', '\U{2005}',
    '\U{2006}', '\U{2007}', '\U{2008}', '\U{2009}', '\U{200A}',
    '\U{2028}', '\U{2029}', '\U{202F}', '\U{205F}', '\U{3000}'
  }

  predicate AllIn(s: string, cs: set<char>)
  {
    forall i :: 0 <= i < |s| ==> s[i] in cs
  }

  // ---------------------------------------------------------------------------
  // strip

  /** Python's `s.strip(chars)` with `cs` the set of `chars`; `s.strip()` is
      `Strip(s, Whitespace)`. Removing characters of `cs` from the front and from the
      back in any order gives the same result. */
  function Strip(s: string, cs: set<char>): string
    decreases |s|
  {
    if |s| > 0 && s[0] in cs then Strip(s[1..], cs)
    else if |s| > 0 && s[|s| - 1] in cs then Strip(s[..|s| - 1], cs)
    else s
  }

  /** `strip` removes a prefix and a suffix made only of characters of `cs`. */
  lemma {:induction false} StripBounds(s: string, cs: set<char>) returns (a: nat, b: nat)
    ensures a <= b <= |s| && Strip(s, cs) == s[a..b]
    ensures AllIn(s[..a], cs) && AllIn(s[b..], cs)
    decreases |s|
  {
    if |s| > 0 && s[0] in cs {
      var a', b' := StripBounds(s[1..], cs);
      a, b := a' + 1, b' + 1;
      assert s[1..][a'..b'] == s[a..b];
      assert s[..a] == [s[0]] + s[1..][..a'];
      assert s[b..] == s[1..][b'..];
    } else if |s| > 0 && s[|s| - 1] in cs {
      var t := s[..|s| - 1];
      a, b := StripBounds(t, cs);
      assert t[a..b] == s[a..b];
      assert s[..a] == t[..a];
      assert s[b..] == t[b..] + [s[|s| - 1]];
    } else {
      a, b := 0, |s|;
      assert s[0..|s|] == s;
    }
  }

  /** What `strip` leaves neither starts nor ends with a character of `cs`. */
  lemma {:induction false} StripEnds(s: string, cs: set<char>)
    ensures Strip(s, cs) != [] ==>
              Strip(s, cs)[0] !in cs && Strip(s, cs)[|Strip(s, cs)| - 1] !in cs
    decreases |s|
  {
    if |s| > 0 && s[0] in cs {
      StripEnds(s[1..], cs);
    } else if |s| > 0 && s[|s| - 1] in cs {
      StripEnds(s[..|s| - 1], cs);
    }
  }

  /** `strip` leaves nothing exactly when every character is stripped, and
      otherwise a text that neither starts nor ends with a stripped character. */
  lemma StripSpec(s: string, cs: set<char>)
    ensures |Strip(s, cs)| <= |s|
    ensures Strip(s, cs) == [] <==> AllIn(s, cs)
    ensures Strip(s, cs) != [] ==>
              Strip(s, cs)[0] !in cs && Strip(s, cs)[|Strip(s, cs)| - 1] !in cs
  {
    var a, b := StripBounds(s, cs);
    StripEnds(s, cs);
    if Strip(s, cs) == [] {
      assert s == s[..a] + s[b..];
    } else {
      assert s[a] == Strip(s, cs)[0];
    }
  }

  // ---------------------------------------------------------------------------
  // find

  predicate OccursAt(s: string, sep: string, k: nat)
  {
    k + |sep| <= |s| && s[k..k + |sep|] == sep
  }

  /** Python's `s.find(sep, i)` as an option: the first position at or after `i`
      where `sep` occurs. */
  function FindFrom(s: string, sep: string, i: nat): (r: Option<nat>)
    ensures r.Some? ==> i <= r.value && OccursAt(s, sep, r.value)
    ensures r.Some? ==> forall k :: i <= k < r.value ==> !OccursAt(s, sep, k)
    ensures r.None? ==> forall k :: i <= k ==> !OccursAt(s, sep, k)
    decreases |s| - i
  {
    if i + |sep| > |s| then None
    else if s[i..i + |sep|] == sep then Some(i)
    else FindFrom(s, sep, i + 1)
  }

  function Find(s: string, sep: string): Option<nat>
  {
    FindFrom(s, sep, 0)
  }

  // ---------------------------------------------------------------------------
  // join and split

  /** Python's `sep.join(xs)`. */
  function Join(xs: seq<string>, sep: string): string
  {
    if |xs| == 0 then ""
    else if |xs| == 1 then xs[0]
    else xs[0] + sep + Join(xs[1..], sep)
  }

  /** Python's `s.split(sep)` for a non-empty separator: cut at every occurrence of
      `sep`, scanning left to right without overlap. The pieces joined back with `sep`
      give `s`, and no piece contains `sep`. */
  function Split(s: string, sep: string): (r: seq<string>)
    requires |sep| > 0
    ensures |r| >= 1
    ensures Join(r, sep) == s
    ensures forall i :: 0 <= i < |r| ==> Find(r[i], sep).None?
    decreases |s|
  {
    match Find(s, sep)
    case None => [s]
    case Some(k) =>
      var rest := Split(s[k + |sep|..], sep);
      NoOccurrenceBefore(s, sep, k);
      assert s[..k] + sep + s[k + |sep|..] == s;
      [s[..k]] + rest
  }

  lemma NoOccurrenceBefore(s: string, sep: string, k: nat)
    requires |sep| > 0 && Find(s, sep) == Some(k)
    ensures Find(s[..k], sep).None?
  {
    var p := s[..k];
    if Find(p, sep).Some? {
      var j := Find(p, sep).value;
      assert p[j..j + |sep|] == s[j..j + |sep|];
      assert OccursAt(s, sep, j) && j < k;
    }
  }

  lemma JoinFirst(xs: seq<string>, sep: string)
    requires |xs| >= 1
    ensures Join(xs, sep)[..|xs[0]|] == xs[0]
  {
  }

  /** `join` over a list with one more element at the end. */
  lemma {:induction false} JoinSnoc(xs: seq<string>, x: string, sep: string)
    requires |xs| >= 1
    ensures Join(xs + [x], sep) == Join(xs, sep) + sep + x
    decreases |xs|
  {
    if |xs| == 1 {
      assert (xs + [x])[1..] == [x];
    } else {
      assert (xs + [x])[1..] == xs[1..] + [x];
      JoinSnoc(xs[1..], x, sep);
    }
  }

  /** Every piece of the split of an all-`cs` string is all-`cs`. */
  lemma {:induction false} SplitAllIn(s: string, sep: string, cs: set<char>)
    requires |sep| > 0 && AllIn(s, cs)
    ensures forall i :: 0 <= i < |Split(s, sep)| ==> AllIn(Split(s, sep)[i], cs)
    decreases |s|
  {
    match Find(s, sep)
    case None =>
    case Some(k) =>
      SplitAllIn(s[k + |sep|..], sep, cs);
  }

  // ---------------------------------------------------------------------------
  // str() of integers

  predicate IsDigit(c: char)
  {
    '0' <= c <= '9'
  }

  function DigitChar(d: nat): (c: char)
    requires d < 10
  {
    (48 + d) as char
  }

  function DigitValue(c: char): nat
  {
    if IsDigit(c) then (c as int) - 48 else 0
  }

  /** Python's `str(n)` for `n >= 0`: decimal, no leading zero, never empty. */
  function NatToString(n: nat): (r: string)
    ensures |r| >= 1
    ensures forall i :: 0 <= i < |r| ==> IsDigit(r[i])
  {
    if n < 10 then [DigitChar(n)] else NatToString(n / 10) + [DigitChar(n % 10)]
  }

  /** Python's `str(i)` for any integer. */
  function IntToString(i: int): string
  {
    if i < 0 then "-" + NatToString(-i) else NatToString(i)
  }

  /** Reading a decimal numeral back (the inverse of `NatToString`). */
  function ParseNat(s: string): nat
  {
    if s == [] then 0 else 10 * ParseNat(s[..|s| - 1]) + DigitValue(s[|s| - 1])
  }

  lemma {:induction false} ParseNatToString(n: nat)
    ensures ParseNat(NatToString(n)) == n
  {
    var s := NatToString(n);
    if n >= 10 {
      assert s[..|s| - 1] == NatToString(n / 10);
      ParseNatToString(n / 10);
    }
  }

  lemma NatToStringInjective(a: nat, b: nat)
    requires NatToString(a) == NatToString(b)
    ensures a == b
  {
    ParseNatToString(a);
    ParseNatToString(b);
  }
}
