/** String helpers with JavaScript semantics: `String.prototype.trim`, the
    truthiness test `!s.trim()`, and the first-index search and splitting that
    `URLSearchParams` performs. */
module Text {

  /** The code points ECMAScript's `trim` removes: its WhiteSpace production
      (tab, vertical tab, form feed, space, no-break space, byte order mark and
      every space separator) and its LineTerminator production. */
  predicate IsWhiteSpace(c: char)
  {
    || c == '\t' || c == '\n' || c == '\U{B}' || c == '\U{C}' || c == '\r' || c == ' '
    || c == '\U{A0}' || c == '\U{1680}' || ('\U{2000}' <= c <= '\U{200A}')
    || c == '\U{2028}' || c == '\U{2029}' || c == '\U{202F}' || c == '\U{205F}'
    || c == '\U{3000}' || c == '\U{FEFF}'
  }

  predicate AllWhiteSpace(s: string)
  {
    forall i :: 0 <= i < |s| ==> IsWhiteSpace(s[i])
  }

  /** How many white-space characters `s` starts with. */
  function LeadingWhiteSpace(s: string): (n: nat)
    ensures n <= |s|
    ensures forall i :: 0 <= i < n ==> IsWhiteSpace(s[i])
    ensures n < |s| ==> !IsWhiteSpace(s[n])
  {
    if s != [] && IsWhiteSpace(s[0]) then 1 + LeadingWhiteSpace(s[1..]) else 0
  }

  /** How many white-space characters `s` ends with. */
  function TrailingWhiteSpace(s: string): (n: nat)
    ensures n <= |s|
    ensures forall i :: |s| - n <= i < |s| ==> IsWhiteSpace(s[i])
    ensures n < |s| ==> !IsWhiteSpace(s[|s| - n - 1])
  {
    if s != [] && IsWhiteSpace(s[|s| - 1]) then 1 + TrailingWhiteSpace(s[..|s| - 1]) else 0
  }

  /** `s` without its leading white space. */
  function DropLeading(s: string): string
  {
    s[LeadingWhiteSpace(s)..]
  }

  /** `s.trim()`: the infix of `s` left after removing white space at both ends. */
  function Trim(s: string): (r: string)
    ensures |r| <= |s|
    ensures r == [] || (!IsWhiteSpace(r[0]) && !IsWhiteSpace(r[|r| - 1]))
  {
    var t := DropLeading(s);
    t[..|t| - TrailingWhiteSpace(t)]
  }

  /** The white space `trim` drops at the front. */
  function Leading(s: string): string
  {
    s[..LeadingWhiteSpace(s)]
  }

  /** The white space `trim` drops at the back. */
  function Trailing(s: string): string
  {
    var t := DropLeading(s);
    t[|t| - TrailingWhiteSpace(t)..]
  }

  /** Trimming removes white space and nothing else: the input is the white
      space dropped at the front, the trimmed text, and the white space
      dropped at the back. */
  lemma TrimRemovesOnlyWhiteSpace(s: string)
    ensures s == Leading(s) + Trim(s) + Trailing(s)
    ensures AllWhiteSpace(Leading(s)) && AllWhiteSpace(Trailing(s))
  {
    var t := DropLeading(s);
    assert t == Trim(s) + Trailing(s);
    assert s == Leading(s) + t;
  }

  /** `!s.trim()`: the string is all white space, so it is empty once trimmed
      and JavaScript treats it as false (`TrimEmptyIffBlank`). */
  predicate IsBlank(s: string)
  {
    AllWhiteSpace(s)
  }

  /** Trimming leaves nothing exactly when every character is white space. */
  lemma TrimEmptyIffBlank(s: string)
    ensures Trim(s) == [] <==> IsBlank(s)
  {
    var n := LeadingWhiteSpace(s);
    var t := DropLeading(s);
    if Trim(s) == [] {
      var m := TrailingWhiteSpace(t);
      assert m == |t|;
    } else {
      assert n < |s|;
    }
  }

  /** Trimming twice is trimming once. */
  lemma TrimIdempotent(s: string)
    ensures Trim(Trim(s)) == Trim(s)
  {
    var r := Trim(s);
    if r != [] {
      assert LeadingWhiteSpace(r) == 0;
      assert DropLeading(r) == r;
      assert TrailingWhiteSpace(r) == 0;
    }
  }

  /** The index of the first `c` in `s`, or `|s|` when there is none. */
  function IndexOf(s: string, c: char): (k: nat)
    ensures k <= |s|
    ensures k < |s| ==> s[k] == c
    ensures forall i :: 0 <= i < k ==> s[i] != c
  {
    if s == [] then 0 else if s[0] == c then 0 else 1 + IndexOf(s[1..], c)
  }

  /** Searching a concatenation finds the first `c` of the left part, or else
      searches the right part. */
  lemma {:induction false} IndexOfAppend(a: string, b: string, c: char)
    ensures IndexOf(a + b, c) == if c in a then IndexOf(a, c) else |a| + IndexOf(b, c)
  {
    if a != [] {
      assert (a + b)[1..] == a[1..] + b;
      IndexOfAppend(a[1..], b, c);
    } else {
      assert a + b == b;
    }
  }

  /** `s.split(sep)`: the pieces between the separators, in order. */
  function Split(s: string, sep: char): (parts: seq<string>)
    ensures |parts| >= 1
    ensures forall i :: 0 <= i < |parts| ==> sep !in parts[i]
    decreases |s|
  {
    var k := IndexOf(s, sep);
    if k == |s| then [s] else [s[..k]] + Split(s[k + 1..], sep)
  }

  /** `parts.join(sep)`: the parts with one separator between neighbours. */
  function Join(parts: seq<string>, sep: char): string
    requires |parts| >= 1
  {
    if |parts| == 1 then parts[0] else parts[0] + [sep] + Join(parts[1..], sep)
  }

  /** Splitting loses nothing: joining the parts with the separator gives
      back the string. */
  lemma {:induction false} SplitJoin(s: string, sep: char)
    ensures Join(Split(s, sep), sep) == s
    decreases |s|
  {
    var k := IndexOf(s, sep);
    if k < |s| {
      var rest := s[k + 1..];
      var parts := Split(s, sep);
      SplitJoin(rest, sep);
      assert parts == [s[..k]] + Split(rest, sep);
      assert parts[1..] == Split(rest, sep);
      assert Join(parts, sep) == s[..k] + [sep] + Join(Split(rest, sep), sep);
      assert s == s[..k] + [sep] + rest;
    }
  }

  /** A string without the separator splits into itself alone. */
  lemma SplitWithoutSeparator(s: string, sep: char)
    requires sep !in s
    ensures Split(s, sep) == [s]
  {
    assert IndexOf(s, sep) == |s|;
  }

}
