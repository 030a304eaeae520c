/**
 * The Python string operations the pipeline relies on: `in` (substring),
 * `lower()`, `strip()`, `replace(old, '')`, `endswith` and `split`.
 */
module Text {
  import Seqs

  /** Python's `str.isspace()`: the characters `strip()` removes and `\s` matches. */
  predicate IsSpace(c: char) {
    || c == ' '
    || ('\t' <= c <= '\r')
    || ('\U{1C}' <= c <= '\U{1F}')
    || c == '\U{85}' || c == '\U{A0}' || c == '\U{1680}'
    || ('\U{2000}' <= c <= '\U{200A}')
    || c == '\U{2028}' || c == '\U{2029}' || c == '\U{202F}' || c == '\U{205F}' || c == '\U{3000}'
  }

  predicate IsDigit(c: char) {
    '0' <= c <= '9'
  }

  function LowerChar(c: char): char {
    if 'A' <= c <= 'Z' then (c as int - 'A' as int + 'a' as int) as char else c
  }

  /** `str.lower()` on the ASCII letters. */
  function Lower(s: string): (r: string)
    ensures |r| == |s|
  {
    seq(|s|, i requires 0 <= i < |s| => LowerChar(s[i]))
  }

  /** `p` occurs in `s` starting at index `i`. */
  predicate OccursAt(s: string, p: string, i: int) {
    0 <= i && i + |p| <= |s| && s[i..i + |p|] == p
  }

  /** Python's `p in s` for strings, as a left-to-right scan. */
  predicate Contains(s: string, p: string)
    decreases |s|
  {
    |p| <= |s| && (s[..|p|] == p || Contains(s[1..], p))
  }

  /** The scan finds `p` exactly when `p` occurs at some index of `s`. */
  lemma {:induction false} ContainsIffOccurs(s: string, p: string)
    ensures Contains(s, p) <==> exists i :: OccursAt(s, p, i)
    decreases |s|
  {
    if |p| <= |s| && s[..|p|] != p {
      ContainsIffOccurs(s[1..], p);
      if Contains(s[1..], p) {
        var i :| OccursAt(s[1..], p, i);
        assert s[i + 1..i + 1 + |p|] == s[1..][i..i + |p|];
        assert OccursAt(s, p, i + 1);
      } else if exists i :: OccursAt(s, p, i) {
        var i :| OccursAt(s, p, i);
        assert i != 0;
        assert s[1..][i - 1..i - 1 + |p|] == s[i..i + |p|];
        assert OccursAt(s[1..], p, i - 1);
        assert false;
      }
    } else if |p| <= |s| {
      assert OccursAt(s, p, 0);
    }
  }

  lemma ContainsAt(s: string, p: string, i: int)
    requires 0 <= i && i + |p| <= |s|
    requires forall k :: 0 <= k < |p| ==> s[i + k] == p[k]
    ensures Contains(s, p)
  {
    assert s[i..i + |p|] == p;
    assert OccursAt(s, p, i);
    ContainsIffOccurs(s, p);
  }

  /** A two-character pattern is absent when no occurrence of its first character is followed by its second. */
  lemma NotContainsPair(s: string, a: char, b: char)
    requires forall k :: 0 <= k < |s| - 1 && s[k] == a ==> s[k + 1] != b
    ensures !Contains(s, [a, b])
  {
    ContainsIffOccurs(s, [a, b]);
    forall i | 0 <= i && i + 2 <= |s| ensures !OccursAt(s, [a, b], i) {
      assert s[i..i + 2][0] == s[i] && s[i..i + 2][1] == s[i + 1];
    }
  }

  /** A pattern holding a character that `s` lacks does not occur in `s`. */
  lemma NotContainsMissingChar(s: string, p: string, j: int)
    requires 0 <= j < |p| && p[j] !in s
    ensures !Contains(s, p)
  {
    ContainsIffOccurs(s, p);
    if exists i :: OccursAt(s, p, i) {
      var i :| OccursAt(s, p, i);
    }
  }

  /** Python's `any(term in s for term in terms)`. */
  predicate ContainsAny(s: string, terms: seq<string>) {
    exists k :: 0 <= k < |terms| && Contains(s, terms[k])
  }

  /** Python's `s.endswith(suffix)`. */
  predicate EndsWith(s: string, suffix: string) {
    |suffix| <= |s| && s[|s| - |suffix|..] == suffix
  }

  /** Python's `s.replace(pat, '')`: left-to-right, non-overlapping removal. */
  function RemoveAll(s: string, pat: string): (r: string)
    requires pat != []
    ensures |r| <= |s|
    decreases |s|
  {
    if |s| < |pat| then s
    else if s[..|pat|] == pat then RemoveAll(s[|pat|..], pat)
    else [s[0]] + RemoveAll(s[1..], pat)
  }

  /** Removing a pattern that does not occur leaves the text as it is. */
  lemma {:induction false} RemoveAbsent(s: string, pat: string)
    requires pat != [] && !Contains(s, pat)
    ensures RemoveAll(s, pat) == s
    decreases |s|
  {
    if |s| >= |pat| {
      RemoveAbsent(s[1..], pat);
      assert s == [s[0]] + s[1..];
    }
  }

  /** Removing one character deletes every copy of it and nothing else. */
  lemma {:induction false} RemoveCharSpec(s: string, c: char)
    ensures c !in RemoveAll(s, [c])
    ensures c !in s ==> RemoveAll(s, [c]) == s
    ensures forall d :: d != c ==> multiset(RemoveAll(s, [c]))[d] == multiset(s)[d]
    decreases |s|
  {
    if |s| >= 1 {
      RemoveCharSpec(s[1..], c);
      assert s == [s[0]] + s[1..];
    }
  }

  /** Removing one character distributes over concatenation. */
  lemma {:induction false} RemoveCharConcat(a: string, b: string, c: char)
    ensures RemoveAll(a + b, [c]) == RemoveAll(a, [c]) + RemoveAll(b, [c])
    decreases |a|
  {
    if a == [] {
      assert a + b == b;
    } else {
      RemoveCharConcat(a[1..], b, c);
      Seqs.AppendFront(a, b);
      RemoveCharStep(a + b, c);
      RemoveCharStep(a, c);
      var head := if a[0] == c then [] else [a[0]];
      Seqs.Assoc(head, RemoveAll(a[1..], [c]), RemoveAll(b, [c]));
    }
  }

  /** One step of removing a character: the first one goes or stays. */
  lemma RemoveCharStep(s: string, c: char)
    requires s != []
    ensures RemoveAll(s, [c]) == (if s[0] == c then [] else [s[0]]) + RemoveAll(s[1..], [c])
  {
    assert s[..1] == [s[0]];
    if s[0] == c {
      assert [] + RemoveAll(s[1..], [c]) == RemoveAll(s[1..], [c]);
    }
  }

  /** Removing one character from a text with one extra character spliced in. */
  lemma RemoveCharSplice(x: string, y: string, c: char, d: char)
    ensures RemoveAll(x + [c] + y, [d]) ==
      RemoveAll(x, [d]) + (if c == d then [] else [c]) + RemoveAll(y, [d])
    ensures RemoveAll(x + y, [d]) == RemoveAll(x, [d]) + RemoveAll(y, [d])
  {
    RemoveCharConcat(x + [c], y, d);
    RemoveCharConcat(x, [c], d);
    RemoveCharConcat(x, y, d);
    assert RemoveAll([c], [d]) == if c == d then [] else [c] by {
      assert [c][..1] == [c] && [c][1..] == [];
    }
  }

  /** `s.replace(pats[0], '').replace(pats[1], '')...`: each pattern removed in turn. */
  function RemoveEach(s: string, pats: seq<string>): (r: string)
    requires forall k :: 0 <= k < |pats| ==> pats[k] != []
    ensures |r| <= |s|
    decreases |pats|
  {
    if pats == [] then s else RemoveEach(RemoveAll(s, pats[0]), pats[1..])
  }

  lemma RemoveEachThree(s: string, a: string, b: string, c: string)
    requires a != [] && b != [] && c != []
    ensures RemoveEach(s, [a, b, c]) == RemoveAll(RemoveAll(RemoveAll(s, a), b), c)
  {
    assert [a, b, c][1..] == [b, c] && [b, c][1..] == [c] && [c][1..] == [];
    var s1 := RemoveAll(s, a);
    var s2 := RemoveAll(s1, b);
    var s3 := RemoveAll(s2, c);
    assert RemoveEach(s3, []) == s3;
    assert RemoveEach(s2, [c]) == RemoveEach(s3, []);
    assert RemoveEach(s1, [b, c]) == RemoveEach(s2, [c]);
  }

  lemma RemoveEachFour(s: string, a: string, b: string, c: string, d: string)
    requires a != [] && b != [] && c != [] && d != []
    ensures RemoveEach(s, [a, b, c, d]) == RemoveAll(RemoveAll(RemoveAll(RemoveAll(s, a), b), c), d)
  {
    assert [a, b, c, d][1..] == [b, c, d];
    RemoveEachThree(RemoveAll(s, a), b, c, d);
  }

  /**
   * Removing one-character patterns in turn deletes every copy of those
   * characters and keeps every other character.
   */
  lemma {:induction false} RemoveEachSpec(s: string, pats: seq<string>)
    requires forall k :: 0 <= k < |pats| ==> |pats[k]| == 1
    ensures forall k :: 0 <= k < |pats| ==> pats[k][0] !in RemoveEach(s, pats)
    ensures forall c :: (forall k :: 0 <= k < |pats| ==> pats[k][0] != c) ==>
      multiset(RemoveEach(s, pats))[c] == multiset(s)[c]
    decreases |pats|
  {
    if pats != [] {
      var d := pats[0][0];
      assert pats[0] == [d];
      var s1 := RemoveAll(s, [d]);
      RemoveCharSpec(s, d);
      RemoveEachSpec(s1, pats[1..]);
      forall k | 0 <= k < |pats| ensures pats[k][0] !in RemoveEach(s, pats) {
        if k == 0 {
          if [d] !in pats[1..] {
            assert forall j :: 0 <= j < |pats[1..]| ==> pats[1..][j][0] != d by {
              forall j | 0 <= j < |pats[1..]| ensures pats[1..][j][0] != d {
                assert pats[1..][j] == [pats[1..][j][0]];
              }
            }
            assert multiset(RemoveEach(s, pats))[d] == multiset(s1)[d];
          } else {
            var j :| 0 <= j < |pats[1..]| && pats[1..][j] == [d];
            assert pats[1..][j][0] == d;
          }
        } else {
          assert pats[k] == pats[1..][k - 1];
        }
      }
      forall c | forall k :: 0 <= k < |pats| ==> pats[k][0] != c
        ensures multiset(RemoveEach(s, pats))[c] == multiset(s)[c]
      {
        assert forall j :: 0 <= j < |pats[1..]| ==> pats[1..][j] == pats[j + 1];
      }
    }
  }

  /** Removing one-character patterns none of which occurs leaves the text as it is. */
  lemma {:induction false} RemoveEachAbsent(s: string, pats: seq<string>)
    requires forall k :: 0 <= k < |pats| ==> |pats[k]| == 1 && pats[k][0] !in s
    ensures RemoveEach(s, pats) == s
    decreases |pats|
  {
    if pats != [] {
      assert pats[0] == [pats[0][0]];
      RemoveCharSpec(s, pats[0][0]);
      assert forall k :: 0 <= k < |pats[1..]| ==> pats[1..][k] == pats[k + 1];
      RemoveEachAbsent(s, pats[1..]);
    }
  }

  /** A character spliced in is gone once a removal for it has run, whatever the other removals do. */
  lemma {:induction false} RemoveEachSplice(x: string, y: string, c: char, pats: seq<string>)
    requires forall k :: 0 <= k < |pats| ==> |pats[k]| == 1
    requires [c] in pats
    ensures RemoveEach(x + [c] + y, pats) == RemoveEach(x + y, pats)
    decreases |pats|
  {
    var d := pats[0][0];
    assert pats[0] == [d];
    RemoveCharSplice(x, y, c, d);
    if c == d {
      assert RemoveAll(x, [d]) + [] + RemoveAll(y, [d]) == RemoveAll(x, [d]) + RemoveAll(y, [d]);
    } else {
      assert [c] in pats[1..];
      RemoveEachSplice(RemoveAll(x, [d]), RemoveAll(y, [d]), c, pats[1..]);
    }
  }

  function TrimStart(s: string): (r: string)
    decreases |s|
  {
    if |s| > 0 && IsSpace(s[0]) then TrimStart(s[1..]) else s
  }

  function TrimEnd(s: string): (r: string)
    decreases |s|
  {
    if |s| > 0 && IsSpace(s[|s| - 1]) then TrimEnd(s[..|s| - 1]) else s
  }

  /** Python's `s.strip()`. */
  function Strip(s: string): string {
    TrimEnd(TrimStart(s))
  }

  predicate AllSpace(s: string) {
    forall k :: 0 <= k < |s| ==> IsSpace(s[k])
  }

  predicate NoSpace(s: string) {
    forall k :: 0 <= k < |s| ==> !IsSpace(s[k])
  }

  /** Number of whitespace characters `TrimStart` removes. */
  function LeadLen(s: string): (n: nat)
    ensures n <= |s|
    decreases |s|
  {
    if |s| > 0 && IsSpace(s[0]) then 1 + LeadLen(s[1..]) else 0
  }

  /** Number of whitespace characters `TrimEnd` removes. */
  function TrailLen(s: string): (n: nat)
    ensures n <= |s|
    decreases |s|
  {
    if |s| > 0 && IsSpace(s[|s| - 1]) then 1 + TrailLen(s[..|s| - 1]) else 0
  }

  lemma {:induction false} TrimStartSpec(s: string)
    ensures TrimStart(s) == s[LeadLen(s)..]
    ensures AllSpace(s[..LeadLen(s)])
    ensures TrimStart(s) == [] || !IsSpace(TrimStart(s)[0])
    decreases |s|
  {
    if |s| > 0 && IsSpace(s[0]) {
      var t := s[1..];
      TrimStartSpec(t);
      var i := LeadLen(t);
      assert s[i + 1..] == t[i..];
      forall k | 0 <= k <= i ensures IsSpace(s[k]) {
        if k > 0 { assert s[k] == t[..i][k - 1]; }
      }
      assert AllSpace(s[..i + 1]);
    }
  }

  lemma {:induction false} TrimEndSpec(s: string)
    ensures TrimEnd(s) == s[..|s| - TrailLen(s)]
    ensures AllSpace(s[|s| - TrailLen(s)..])
    ensures TrimEnd(s) == [] || !IsSpace(TrimEnd(s)[|TrimEnd(s)| - 1])
    decreases |s|
  {
    if |s| > 0 && IsSpace(s[|s| - 1]) {
      var t := s[..|s| - 1];
      TrimEndSpec(t);
      var j := |t| - TrailLen(t);
      assert t[..j] == s[..j];
      forall k | j <= k < |s| ensures IsSpace(s[k]) {
        if k < |t| { assert s[k] == t[j..][k - j]; }
      }
      assert AllSpace(s[j..]);
    }
  }

  /**
   * `strip()` removes a run of whitespace from each end and nothing else:
   * what remains neither starts nor ends with whitespace.
   */
  lemma StripSpec(s: string)
    ensures exists i, j :: 0 <= i <= j <= |s| && Strip(s) == s[i..j] && AllSpace(s[..i]) && AllSpace(s[j..])
    ensures Strip(s) == [] || (!IsSpace(Strip(s)[0]) && !IsSpace(Strip(s)[|Strip(s)| - 1]))
  {
    var t := TrimStart(s);
    TrimStartSpec(s);
    TrimEndSpec(t);
    var i := LeadLen(s);
    var j := |t| - TrailLen(t);
    Seqs.SliceOfSlice(s, i, j);
    StripEnds(t, j);
    assert Strip(s) == s[i..i + j];
    assert AllSpace(s[i + j..]);
  }

  /** The first character of what `TrimEnd` keeps is the first character of its input. */
  lemma StripEnds(t: string, j: nat)
    requires j <= |t| && TrimEnd(t) == t[..j]
    requires t == [] || !IsSpace(t[0])
    ensures TrimEnd(t) == [] || !IsSpace(TrimEnd(t)[0])
  {
    if j > 0 {
      assert TrimEnd(t)[0] == t[0];
    }
  }

  /** A string without surrounding whitespace is left as it is. */
  lemma {:induction false} StripUnpadded(s: string)
    requires s == [] || (!IsSpace(s[0]) && !IsSpace(s[|s| - 1]))
    ensures Strip(s) == s
  {
  }

  /** Python's `s.split(sep)` for a one-character separator. */
  function Split(s: string, sep: char): (r: seq<string>)
    ensures |r| >= 1
    decreases |s|
  {
    if s == [] then [[]]
    else
      var rest := Split(s[1..], sep);
      if s[0] == sep then [[]] + rest else [[s[0]] + rest[0]] + rest[1..]
  }

  /** `sep.join(parts)`. */
  function Join(parts: seq<string>, sep: char): string
    requires |parts| >= 1
  {
    if |parts| == 1 then parts[0] else parts[0] + [sep] + Join(parts[1..], sep)
  }

  /** Splitting and joining again gives back the text; no piece holds the separator. */
  lemma {:induction false} SplitJoin(s: string, sep: char)
    ensures Join(Split(s, sep), sep) == s
    ensures forall k :: 0 <= k < |Split(s, sep)| ==> sep !in Split(s, sep)[k]
    decreases |s|
  {
    if s != [] {
      SplitJoin(s[1..], sep);
      var rest := Split(s[1..], sep);
      if s[0] == sep {
        assert Split(s, sep)[1..] == rest;
      } else if |rest| == 1 {
        assert s == [s[0]] + s[1..];
      } else {
        assert Split(s, sep)[1..] == rest[1..];
        assert rest[1..][0] == rest[1];
        assert Join(rest, sep) == rest[0] + [sep] + Join(rest[1..], sep);
        assert s == [s[0]] + s[1..];
      }
    }
  }
}
