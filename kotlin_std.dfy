/** The pieces of Kotlin's standard library the firewall relies on: nullable
    values and the `String` functions used to parse rule keys, to search app
    names and to order them. */
module KotlinStd {

  /** Kotlin's nullable type `T?`. */
  datatype Option<+T> = None | Some(value: T)

  /** `s.endsWith(suffix)`. */
  predicate EndsWith(s: string, suffix: string)
  {
    |suffix| <= |s| && s[|s| - |suffix|..] == suffix
  }

  /** `s.lastIndexOf(c)`: the position of the last `c`, or -1 when there is none. */
  function LastIndexOf(s: string, c: char): (r: int)
    ensures -1 <= r < |s|
    ensures r == -1 <==> c !in s
    ensures r >= 0 ==> s[r] == c && c !in s[r + 1..]
  {
    if |s| == 0 then -1
    else if s[|s| - 1] == c then |s| - 1
    else
      var r := LastIndexOf(s[..|s| - 1], c);
      assert s == s[..|s| - 1] + [s[|s| - 1]];
      r
  }

  /** `s.substringBeforeLast(c)`: the part before the last `c`; Kotlin returns
      the whole string when `c` does not occur (its default missingDelimiterValue). */
  function SubstringBeforeLast(s: string, c: char): (r: string)
    ensures c !in s ==> r == s
    ensures c in s ==> |r| < |s| && r == s[..|r|] && s[|r|] == c && c !in s[|r| + 1..]
  {
    var i := LastIndexOf(s, c);
    if i == -1 then s else s[..i]
  }

  /** The position of the last `c` is the one after which no `c` follows. */
  lemma LastOccurrenceUnique(s: string, c: char, i: nat)
    requires i < |s| && s[i] == c && c !in s[i + 1..]
    ensures LastIndexOf(s, c) == i
  {
  }

  /** `substringBeforeLast` recovers `p` from `p + [c] + t` whenever `t` has no `c`. */
  lemma {:induction false} BeforeLastOfJoin(p: string, c: char, t: string)
    requires c !in t
    ensures SubstringBeforeLast(p + [c] + t, c) == p
  {
    var s := p + [c] + t;
    assert s[|p|] == c;
    assert s[|p| + 1..] == t;
    LastOccurrenceUnique(s, c, |p|);
    assert s[..|p|] == p;
  }

  /** `Char.lowercaseChar()`, restricted to ASCII letters. */
  function LowerChar(c: char): (r: char)
    ensures 'A' <= c <= 'Z' ==> 'a' <= r <= 'z' && r as int == c as int + 32
    ensures !('A' <= c <= 'Z') ==> r == c
  {
    if 'A' <= c <= 'Z' then (c as int + 32) as char else c
  }

  /** `String.lowercase()`, letter by letter. */
  function Lowercase(s: string): (r: string)
    ensures |r| == |s|
    ensures forall i :: 0 <= i < |s| ==> r[i] == LowerChar(s[i])
  {
    seq(|s|, i requires 0 <= i < |s| => LowerChar(s[i]))
  }

  /** `a.equals(b, ignoreCase = true)` on characters. */
  predicate CharEqualsIgnoreCase(a: char, b: char)
  {
    LowerChar(a) == LowerChar(b)
  }

  /** `a.equals(b, ignoreCase = true)` on strings, as Java's `equalsIgnoreCase`. */
  predicate EqualsIgnoreCase(a: string, b: string)
  {
    |a| == |b| && forall i :: 0 <= i < |a| ==> CharEqualsIgnoreCase(a[i], b[i])
  }

  /** The characters of `q` match, ignoring case, those of `s` starting at `i`. */
  predicate MatchesAt(s: string, i: nat, q: string)
    requires i + |q| <= |s|
  {
    forall j :: 0 <= j < |q| ==> CharEqualsIgnoreCase(s[i + j], q[j])
  }

  /** Some position at or after `from` where `q` occurs in `s`, ignoring case. */
  predicate OccursFrom(s: string, q: string, from: nat)
  {
    exists i: nat :: from <= i && i + |q| <= |s| && MatchesAt(s, i, q)
  }

  /** The scan behind `s.contains(q, ignoreCase = true)`, from position `from` on. */
  function ContainsFrom(s: string, q: string, from: nat): (r: bool)
    ensures r <==> OccursFrom(s, q, from)
    decreases |s| - from
  {
    if from + |q| > |s| then false
    else if MatchesAt(s, from, q) then true
    else
      var r := ContainsFrom(s, q, from + 1);
      assert OccursFrom(s, q, from) ==> OccursFrom(s, q, from + 1) by {
        if OccursFrom(s, q, from) {
          var i: nat :| from <= i && i + |q| <= |s| && MatchesAt(s, i, q);
          assert i != from;
        }
      }
      r
  }

  /** `s.contains(q, ignoreCase = true)`. */
  function ContainsIgnoreCase(s: string, q: string): (r: bool)
    ensures r <==> exists i: nat :: i + |q| <= |s| && MatchesAt(s, i, q)
  {
    ContainsFrom(s, q, 0)
  }

  /** `Char.isWhitespace()` on the JVM: Java's whitespace characters together
      with its space separators (so also the no-break spaces). */
  predicate IsWhitespace(c: char)
  {
    || '\t' <= c <= '\r'
    || '\U{1C}' <= c <= ' '
    || c == '\U{A0}' || c == '\U{1680}'
    || '\U{2000}' <= c <= '\U{200A}'
    || c == '\U{2028}' || c == '\U{2029}' || c == '\U{202F}'
    || c == '\U{205F}' || c == '\U{3000}'
  }

  /** `s.isBlank()`: empty or whitespace only. */
  predicate IsBlank(s: string)
    ensures |s| == 0 ==> IsBlank(s)
    ensures |s| > 0 && !IsWhitespace(s[0]) ==> !IsBlank(s)
  {
    forall i :: 0 <= i < |s| ==> IsWhitespace(s[i])
  }

  /** `a.compareTo(b) <= 0`: lexicographic order on characters, a proper
      prefix coming first. */
  predicate LexLe(a: string, b: string)
    ensures |a| <= |b| && a == b[..|a|] ==> LexLe(a, b)
    ensures LexLe(a, b) && |a| > 0 ==> |b| > 0 && a[0] <= b[0]
  {
    |a| == 0 || (|b| > 0 && (a[0] < b[0] || (a[0] == b[0] && LexLe(a[1..], b[1..]))))
  }

  lemma {:induction false} LexLeReflexive(a: string)
    ensures LexLe(a, a)
  {
    if |a| > 0 {
      LexLeReflexive(a[1..]);
    }
  }

  lemma {:induction false} LexLeTotal(a: string, b: string)
    ensures LexLe(a, b) || LexLe(b, a)
  {
    if |a| > 0 && |b| > 0 && a[0] == b[0] {
      LexLeTotal(a[1..], b[1..]);
    }
  }

  lemma {:induction false} LexLeTransitive(a: string, b: string, c: string)
    requires LexLe(a, b) && LexLe(b, c)
    ensures LexLe(a, c)
  {
    if |a| > 0 && |b| > 0 && |c| > 0 && a[0] == b[0] == c[0] {
      LexLeTransitive(a[1..], b[1..], c[1..]);
    }
  }

  /** Two strings that are each `<=` the other are equal, so `LexLe` is a total order. */
  lemma {:induction false} LexLeAntisymmetric(a: string, b: string)
    requires LexLe(a, b) && LexLe(b, a)
    ensures a == b
  {
    if |a| > 0 && |b| > 0 {
      LexLeAntisymmetric(a[1..], b[1..]);
      assert a == [a[0]] + a[1..];
      assert b == [b[0]] + b[1..];
    }
  }
}
