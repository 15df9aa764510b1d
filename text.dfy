/** String operations of JavaScript that the backend relies on: lower-casing,
    substring search, first-occurrence replacement, `trim` and `split`. */
module Text {
  import opened Wrappers

  /** Lower-cases one character (ASCII letters only; other characters are kept). */
  function LowerChar(c: char): char
  {
    if 'A' <= c <= 'Z' then (c as int + 32) as char else c
  }

  /** `toLowerCase`, restricted to the ASCII letters. */
  function ToLower(s: string): (r: string)
    ensures |r| == |s|
    ensures forall i :: 0 <= i < |s| ==> r[i] == LowerChar(s[i])
  {
    if s == [] then [] else [LowerChar(s[0])] + ToLower(s[1..])
  }

  /** `p` occurs in `s` starting at index `j`. */
  predicate OccursAt(s: string, p: string, j: int)
  {
    0 <= j && j + |p| <= |s| && s[j..j + |p|] == p
  }

  predicate StartsWith(s: string, p: string)
  {
    |p| <= |s| && s[..|p|] == p
  }

  /** `s.indexOf(p)`: the first index where `p` occurs, if any. */
  function IndexOf(s: string, p: string): (r: Option<nat>)
    ensures r.Some? ==> OccursAt(s, p, r.value) && forall j :: 0 <= j < r.value ==> !OccursAt(s, p, j)
    ensures r.None? ==> forall j :: !OccursAt(s, p, j)
    decreases |s|
  {
    if StartsWith(s, p) then Some(0)
    else if s == [] then None
    else
      var r := IndexOf(s[1..], p);
      assert forall j :: 0 <= j ==> (OccursAt(s[1..], p, j) <==> OccursAt(s, p, j + 1)) by {
        forall j | 0 <= j ensures OccursAt(s[1..], p, j) <==> OccursAt(s, p, j + 1) {
          if j + 1 + |p| <= |s| {
            assert s[1..][j..j + |p|] == s[j + 1..j + 1 + |p|];
          }
        }
      }
      assert !OccursAt(s, p, 0);
      assert forall j :: j < 0 ==> !OccursAt(s, p, j);
      match r
      case None =>
        assert forall j :: !OccursAt(s, p, j) by {
          forall j ensures !OccursAt(s, p, j) {
            if j >= 1 { assert !OccursAt(s[1..], p, j - 1); }
          }
        }
        None
      case Some(k) =>
        assert forall j :: 0 <= j < k + 1 ==> !OccursAt(s, p, j) by {
          forall j | 0 <= j < k + 1 ensures !OccursAt(s, p, j) {
            if j >= 1 { assert !OccursAt(s[1..], p, j - 1); }
          }
        }
        Some(k + 1)
  }

  /** `p` is a substring of `s` (an unanchored regular-expression test on a literal). */
  predicate Contains(s: string, p: string)
  {
    IndexOf(s, p).Some?
  }

  /** An occurrence anywhere makes the text contain the pattern. */
  lemma OccursContains(s: string, p: string, j: int)
    requires OccursAt(s, p, j)
    ensures Contains(s, p)
  {
  }

  /** A text that contains a pattern is that pattern with a text on either side. */
  lemma ContainsSplit(s: string, p: string) returns (a: string, b: string)
    requires Contains(s, p)
    ensures s == a + p + b
  {
    var j := IndexOf(s, p).value;
    a, b := s[..j], s[j + |p|..];
    assert s == s[..j] + s[j..j + |p|] + s[j + |p|..];
  }

  /** Case-insensitive substring match, the meaning given here to a query
      `{ $regex: p, $options: "i" }` whose pattern is read as a literal. */
  predicate ContainsIgnoreCase(s: string, p: string)
  {
    Contains(ToLower(s), ToLower(p))
  }

  /** `s.replace(pat, rep)` with a string pattern: only the first occurrence is replaced. */
  function ReplaceFirst(s: string, pat: string, rep: string): (r: string)
    ensures !Contains(s, pat) ==> r == s
    ensures Contains(s, pat) ==>
      var i := IndexOf(s, pat).value;
      r == s[..i] + rep + s[i + |pat|..] && forall j :: 0 <= j < i ==> !OccursAt(s, pat, j)
  {
    match IndexOf(s, pat)
    case None => s
    case Some(i) => s[..i] + rep + s[i + |pat|..]
  }

  /** The characters `String.prototype.trim` removes: white space and line terminators. */
  predicate IsSpace(c: char)
  {
    c == ' ' || c == '\t' || c == '\n' || c == '\r' || c == '\U{000B}' || c == '\U{000C}'
    || c == '\U{00A0}' || c == '\U{1680}' || ('\U{2000}' <= c <= '\U{200A}')
    || c == '\U{2028}' || c == '\U{2029}' || c == '\U{202F}' || c == '\U{205F}'
    || c == '\U{3000}' || c == '\U{FEFF}'
  }

  /** The length of the white-space prefix of `s`. */
  function LeadingSpaces(s: string): (k: nat)
    ensures k <= |s|
    ensures forall i :: 0 <= i < k ==> IsSpace(s[i])
    ensures k < |s| ==> !IsSpace(s[k])
  {
    if s != [] && IsSpace(s[0]) then 1 + LeadingSpaces(s[1..]) else 0
  }

  /** The length of the white-space suffix of `s`. */
  function TrailingSpaces(s: string): (k: nat)
    ensures k <= |s|
    ensures forall i :: |s| - k <= i < |s| ==> IsSpace(s[i])
    ensures k < |s| ==> !IsSpace(s[|s| - k - 1])
  {
    if s != [] && IsSpace(s[|s| - 1]) then 1 + TrailingSpaces(s[..|s| - 1]) else 0
  }

  /** `s.trim()`: drops the leading and the trailing white space. */
  function Trim(s: string): (r: string)
  {
    var a := LeadingSpaces(s);
    s[a..|s| - TrailingSpaces(s[a..])]
  }

  /** `trim` leaves a slice of its input that neither begins nor ends with white space,
      and everything it removed is white space. */
  lemma TrimSlice(s: string)
    ensures exists a, b ::
              && 0 <= a <= b <= |s| && Trim(s) == s[a..b]
              && (forall i :: 0 <= i < a ==> IsSpace(s[i]))
              && (forall i :: b <= i < |s| ==> IsSpace(s[i]))
    ensures Trim(s) == [] || (!IsSpace(Trim(s)[0]) && !IsSpace(Trim(s)[|Trim(s)| - 1]))
  {
    var a := LeadingSpaces(s);
    var t := s[a..];
    var k := TrailingSpaces(t);
    var b := |s| - k;
    assert Trim(s) == s[a..b];
    assert forall i :: b <= i < |s| ==> IsSpace(s[i]) by {
      forall i | b <= i < |s| ensures IsSpace(s[i]) {
        assert s[i] == t[i - a];
      }
    }
    if Trim(s) != [] {
      assert Trim(s)[|Trim(s)| - 1] == t[|t| - k - 1];
    }
  }

  /** Trimming twice is trimming once. */
  lemma TrimIdempotent(s: string)
    ensures Trim(Trim(s)) == Trim(s)
  {
    var t := Trim(s);
    TrimSlice(s);
    assert LeadingSpaces(t) == 0;
    assert t[0..] == t;
    assert TrailingSpaces(t) == 0;
  }

  /** `s.split(sep)` with a one-character separator: the maximal separator-free pieces,
      always at least one. */
  function Split(s: string, sep: char): (r: seq<string>)
    ensures |r| >= 1
    ensures forall i :: 0 <= i < |r| ==> sep !in r[i]
  {
    if s == [] then [""]
    else if s[0] == sep then [""] + Split(s[1..], sep)
    else
      var rest := Split(s[1..], sep);
      [[s[0]] + rest[0]] + rest[1..]
  }

  /** `parts.join(sep)`. */
  function Join(parts: seq<string>, sep: char): string
    requires |parts| >= 1
  {
    if |parts| == 1 then parts[0] else parts[0] + [sep] + Join(parts[1..], sep)
  }

  /** Splitting and joining on the same separator gives back the string. */
  lemma {:induction false} JoinSplit(s: string, sep: char)
    ensures Join(Split(s, sep), sep) == s
  {
    if s != [] {
      JoinSplit(s[1..], sep);
      if s[0] != sep {
        var rest := Split(s[1..], sep);
        if |rest| == 1 {
          assert Split(s, sep) == [[s[0]] + rest[0]];
        } else {
          assert Split(s, sep)[1..] == rest[1..];
        }
      }
    }
  }

  /** A separator-free head is the first piece, and the rest is split on. */
  lemma {:induction false} SplitAfterHead(a: string, sep: char, b: string)
    requires sep !in a
    ensures Split(a + [sep] + b, sep) == [a] + Split(b, sep)
  {
    if a == [] {
      assert a + [sep] + b == [sep] + b;
      assert ([sep] + b)[1..] == b;
    } else {
      assert (a + [sep] + b)[1..] == a[1..] + [sep] + b;
      SplitAfterHead(a[1..], sep, b);
      assert [a[0]] + a[1..] == a;
    }
  }

  /** A separator-free string is one piece. */
  lemma {:induction false} SplitNoSeparator(a: string, sep: char)
    requires sep !in a
    ensures Split(a, sep) == [a]
  {
    if a != [] {
      SplitNoSeparator(a[1..], sep);
      assert [a[0]] + a[1..] == a;
    }
  }
}
