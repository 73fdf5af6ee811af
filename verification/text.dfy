/**
 * The handful of Python string operations the file filter relies on:
 * str.strip(), str.lower(), str.lstrip('.') and str.split(','),
 * restricted to their behaviour on ASCII text.
 */
module Text {

  /** Python's str.isspace() on ASCII characters: \t \n \v \f \r, the four
      information separators 0x1C-0x1F, and the space. */
  predicate IsSpace(c: char) {
    ('\t' <= c <= '\r') || ('\U{1C}' <= c <= ' ')
  }

  predicate IsUpper(c: char) {
    'A' <= c <= 'Z'
  }

  /** True when every character of s is whitespace (so also for ""). */
  predicate IsBlank(s: string) {
    forall i :: 0 <= i < |s| ==> IsSpace(s[i])
  }

  /** True when s holds no upper-case ASCII letter. */
  predicate IsLowerCase(s: string) {
    forall i :: 0 <= i < |s| ==> !IsUpper(s[i])
  }

  /** The index of the first non-whitespace character of s at or after k,
      or |s| when there is none. */
  function LeadingSpacesEnd(s: string, k: nat): (n: nat)
    requires k <= |s|
    ensures k <= n <= |s|
    ensures forall j :: k <= j < n ==> IsSpace(s[j])
    ensures n < |s| ==> !IsSpace(s[n])
    decreases |s| - k
  {
    if k == |s| || !IsSpace(s[k]) then k else LeadingSpacesEnd(s, k + 1)
  }

  /** The index just past the last non-whitespace character of s[lo..k],
      or lo when there is none. */
  function TrailingSpacesStart(s: string, lo: nat, k: nat): (n: nat)
    requires lo <= k <= |s|
    ensures lo <= n <= k
    ensures forall j :: n <= j < k ==> IsSpace(s[j])
    ensures n > lo ==> !IsSpace(s[n - 1])
    decreases k
  {
    if k == lo || !IsSpace(s[k - 1]) then k else TrailingSpacesStart(s, lo, k - 1)
  }

  /** str.strip() without arguments: the part of s between a blank prefix
      and a blank suffix, with no whitespace at either end. It is empty
      exactly when s is blank. */
  function Strip(s: string): (r: string)
    ensures r != [] ==> !IsSpace(r[0]) && !IsSpace(r[|r| - 1])
    ensures r == [] <==> IsBlank(s)
    ensures exists i :: 0 <= i && i + |r| <= |s| && r == s[i..i + |r|] && IsBlank(s[..i]) && IsBlank(s[i + |r|..])
  {
    var i := LeadingSpacesEnd(s, 0);
    var j := TrailingSpacesStart(s, i, |s|);
    var r := s[i..j];
    assert IsBlank(s[..i]) && IsBlank(s[j..]);
    assert r == s[i..i + |r|];
    r
  }

  function LowerChar(c: char): (r: char)
    ensures !IsUpper(r)
    ensures !IsUpper(c) ==> r == c
    ensures IsUpper(c) ==> 'a' <= r <= 'z' && r as int == c as int + 32
  {
    if IsUpper(c) then (c as int + 32) as char else c
  }

  /** str.lower() on ASCII: upper-case letters become lower-case, nothing else changes. */
  function Lower(s: string): (r: string)
    ensures |r| == |s|
    ensures IsLowerCase(r)
    ensures forall i :: 0 <= i < |s| && !IsUpper(s[i]) ==> r[i] == s[i]
    ensures forall i :: 0 <= i < |s| && IsUpper(s[i]) ==> r[i] as int == s[i] as int + 32
  {
    seq(|s|, i requires 0 <= i < |s| => LowerChar(s[i]))
  }

  /** A suffix of a string without upper-case letters has none either. */
  lemma LowerCaseSuffix(s: string, k: nat)
    requires IsLowerCase(s) && k <= |s|
    ensures IsLowerCase(s[k..])
  {
    assert forall i :: 0 <= i < |s| - k ==> s[k..][i] == s[k + i];
  }

  /** str.lstrip('.'): every leading '.' removed. */
  function TrimLeadingDots(s: string): (r: string)
    ensures |r| <= |s| && r == s[|s| - |r|..]
    ensures forall i :: 0 <= i < |s| - |r| ==> s[i] == '.'
    ensures r != [] ==> r[0] != '.'
  {
    if s != [] && s[0] == '.' then TrimLeadingDots(s[1..]) else s
  }

  /** str.split(sep) with an explicit one-character separator: never empty,
      one more piece than there are separators, no piece holds the separator. */
  function Split(s: string, sep: char): (r: seq<string>)
    ensures |r| >= 1
    ensures forall i :: 0 <= i < |r| ==> sep !in r[i]
  {
    if s == [] then [[]]
    else
      var rest := Split(s[1..], sep);
      if s[0] == sep then [[]] + rest
      else [[s[0]] + rest[0]] + rest[1..]
  }

  /** sep.join(pieces), the inverse of Split. */
  function Join(pieces: seq<string>, sep: char): string
    requires |pieces| >= 1
  {
    if |pieces| == 1 then pieces[0]
    else pieces[0] + [sep] + Join(pieces[1..], sep)
  }

  /** Joining the pieces of a split gives back the original string. */
  lemma {:induction false} JoinSplit(s: string, sep: char)
    ensures Join(Split(s, sep), sep) == s
  {
    if s != [] {
      JoinSplit(s[1..], sep);
      var rest := Split(s[1..], sep);
      if s[0] != sep {
        if |rest| == 1 {
          assert Join(Split(s, sep), sep) == [s[0]] + rest[0];
        } else {
          assert rest == [rest[0]] + rest[1..];
          assert Join(rest, sep) == rest[0] + [sep] + Join(rest[1..], sep);
          assert Join(Split(s, sep), sep) == ([s[0]] + rest[0]) + [sep] + Join(rest[1..], sep);
        }
      }
    }
  }

  /** Splitting a join of separator-free pieces gives back the pieces. */
  lemma {:induction false} SplitJoin(pieces: seq<string>, sep: char)
    requires |pieces| >= 1
    requires forall i :: 0 <= i < |pieces| ==> sep !in pieces[i]
    ensures Split(Join(pieces, sep), sep) == pieces
  {
    if |pieces| == 1 {
      SplitNoSeparator(pieces[0], sep);
    } else {
      SplitJoin(pieces[1..], sep);
      SplitNoSeparator(pieces[0], sep);
      SplitAround(pieces[0], Join(pieces[1..], sep), sep);
      assert pieces == [pieces[0]] + pieces[1..];
    }
  }

  /** A string without the separator splits into itself. */
  lemma {:induction false} SplitNoSeparator(s: string, sep: char)
    requires sep !in s
    ensures Split(s, sep) == [s]
  {
    if s != [] {
      SplitNoSeparator(s[1..], sep);
      assert [s[0]] + s[1..] == s;
    }
  }

  /** A separator between two strings splits them apart. */
  lemma {:induction false} SplitAround(a: string, b: string, sep: char)
    ensures Split(a + [sep] + b, sep) == Split(a, sep) + Split(b, sep)
  {
    var s := a + [sep] + b;
    if a == [] {
      assert s == [sep] + b && s[1..] == b;
    } else {
      assert s[0] == a[0] && s[1..] == a[1..] + [sep] + b;
      SplitAround(a[1..], b, sep);
      var restA := Split(a[1..], sep);
      var tail := restA + Split(b, sep);
      if a[0] == sep {
        assert Split(s, sep) == [[]] + tail;
        assert Split(a, sep) == [[]] + restA;
        PrependAssoc([], restA, Split(b, sep));
      } else {
        assert Split(s, sep) == [[a[0]] + tail[0]] + tail[1..];
        assert tail[0] == restA[0] && tail[1..] == restA[1..] + Split(b, sep);
        assert Split(a, sep) == [[a[0]] + restA[0]] + restA[1..];
        PrependAssoc([a[0]] + restA[0], restA[1..], Split(b, sep));
      }
    }
  }

  /** Consing a piece onto a concatenation of piece lists. */
  lemma PrependAssoc(x: string, p: seq<string>, q: seq<string>)
    ensures [x] + (p + q) == ([x] + p) + q
  {
  }
}
