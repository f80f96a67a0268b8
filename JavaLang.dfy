/**
 * The pieces of the Java platform that the finger server leans on, stated
 * exactly: 32-bit `int`, the two runtime exceptions the parsing code can
 * raise, and the `java.lang.String` operations `trim`, `startsWith`,
 * `split` (on a one-character literal pattern) and `compareTo`.
 */
module JavaLang {

  /** Java's `int`. */
  newtype int32 = x: int | -0x8000_0000 <= x < 0x8000_0000

  datatype Option<T> = None | Some(value: T)

  datatype Result<T, E> = Success(value: T) | Failure(error: E)

  /** The unchecked exceptions the modelled code can raise by itself. */
  datatype JavaException =
    | StringIndexOutOfBounds(begin: int, end: int, length: int)
    | ArrayIndexOutOfBounds(index: int)

  // ---------------------------------------------------------------- trim

  /** `String.trim` removes every leading and trailing char whose code is at most U+0020. */
  predicate IsBlank(c: char) { c <= ' ' }

  predicate AllBlank(s: string) { forall k :: 0 <= k < |s| ==> IsBlank(s[k]) }

  function TrimLeading(s: string): (r: string)
    ensures |r| <= |s| && r == s[|s| - |r|..]
    ensures AllBlank(s[..|s| - |r|])
    ensures r == [] || !IsBlank(r[0])
    decreases |s|
  {
    if |s| > 0 && IsBlank(s[0]) then
      var r := TrimLeading(s[1..]);
      assert s[..|s| - |r|] == [s[0]] + s[1..][..|s| - 1 - |r|];
      r
    else s
  }

  function TrimTrailing(s: string): (r: string)
    ensures |r| <= |s| && r == s[..|r|]
    ensures AllBlank(s[|r|..])
    ensures r == [] || !IsBlank(r[|r| - 1])
    decreases |s|
  {
    if |s| > 0 && IsBlank(s[|s| - 1]) then
      var r := TrimTrailing(s[..|s| - 1]);
      assert s[|r|..] == s[..|s| - 1][|r|..] + [s[|s| - 1]];
      r
    else s
  }

  /** Java's `String.trim()`: `s` minus its blank prefix and its blank suffix. */
  function Trim(s: string): (r: string)
    ensures r == [] || (!IsBlank(r[0]) && !IsBlank(r[|r| - 1]))
  {
    TrimTrailing(TrimLeading(s))
  }

  /** Only a line made of blanks trims to the empty string. */
  lemma {:induction false} TrimEmptyIffBlank(s: string)
    ensures Trim(s) == [] <==> AllBlank(s)
  {
    var l := TrimLeading(s);
    var i := |s| - |l|;
    if Trim(s) == [] {
      assert l[0..] == l;
      assert l == [];
      assert s[..i] == s;
    } else {
      assert Trim(s)[0] == l[0] == s[i];
    }
  }

  /** A string with no blank at either end is its own trim. */
  lemma TrimNoBlankEnds(s: string)
    requires s == [] || (!IsBlank(s[0]) && !IsBlank(s[|s| - 1]))
    ensures Trim(s) == s
  {
  }

  /** Trimming twice is trimming once. */
  lemma {:induction false} TrimIdempotent(s: string)
    ensures Trim(Trim(s)) == Trim(s)
  {
    var r := Trim(s);
    assert TrimLeading(r) == r;
    assert TrimTrailing(r) == r;
  }

  // ---------------------------------------------------------- startsWith

  /** `s.startsWith(prefix)`. */
  predicate StartsWith(s: string, prefix: string) {
    |prefix| <= |s| && s[..|prefix|] == prefix
  }

  // --------------------------------------------------------------- split

  predicate AllChar(s: string, c: char) { forall k :: 0 <= k < |s| ==> s[k] == c }

  /** `s.indexOf(c)` when `c` occurs in `s`. */
  function FirstIndex(s: string, c: char): (i: nat)
    requires c in s
    ensures i < |s| && s[i] == c && c !in s[..i]
  {
    if s[0] == c then 0
    else
      assert s == [s[0]] + s[1..];
      var i := FirstIndex(s[1..], c);
      assert s[..i + 1] == [s[0]] + s[1..][..i];
      i + 1
  }

  /**
   * Every piece of `s` between occurrences of `c`, empty ones included
   * (what `split` computes before it drops trailing empty strings).
   */
  function SplitOn(s: string, c: char): (pieces: seq<string>)
    ensures |pieces| >= 1
    ensures forall p :: p in pieces ==> c !in p
    decreases |s|
  {
    if c in s then
      var i := FirstIndex(s, c);
      [s[..i]] + SplitOn(s[i + 1..], c)
    else [s]
  }

  /** The inverse of `SplitOn`: the pieces glued back together with `c`. */
  function Join(pieces: seq<string>, c: char): string
    requires |pieces| >= 1
    decreases |pieces|
  {
    if |pieces| == 1 then pieces[0] else pieces[0] + [c] + Join(pieces[1..], c)
  }

  lemma {:induction false} JoinSplitOn(s: string, c: char)
    ensures Join(SplitOn(s, c), c) == s
    decreases |s|
  {
    if c in s {
      var i := FirstIndex(s, c);
      var rest := s[i + 1..];
      var tail := SplitOn(rest, c);
      var pieces := [s[..i]] + tail;
      assert SplitOn(s, c) == pieces;
      assert pieces[0] == s[..i] && pieces[1..] == tail;
      JoinSplitOn(rest, c);
      assert Join(tail, c) == rest;
      assert Join(pieces, c) == s[..i] + [c] + rest;
      SplitAround(s, i);
    }
  }

  /** Concatenation regroups freely; stated once so that callers need not prove it element by element. */
  lemma AppendAssociative<T>(a: seq<T>, b: seq<T>, c: seq<T>)
    ensures a + b + c == a + (b + c)
  {
  }

  /** A string is the text before position `i`, the character there, and the text after. */
  lemma SplitAround(s: string, i: nat)
    requires i < |s|
    ensures s[..i] + [s[i]] + s[i + 1..] == s
  {
    assert s[i..] == [s[i]] + s[i + 1..];
    assert s == s[..i] + s[i..];
  }

  lemma FirstIndexAfterPiece(p: string, c: char, tail: string)
    requires c !in p
    ensures FirstIndex(p + [c] + tail, c) == |p|
    decreases |p|
  {
    var s := p + [c] + tail;
    if |p| > 0 {
      assert s[1..] == p[1..] + [c] + tail;
      FirstIndexAfterPiece(p[1..], c, tail);
    }
  }

  lemma {:induction false} SplitOnJoin(pieces: seq<string>, c: char)
    requires |pieces| >= 1
    requires forall p :: p in pieces ==> c !in p
    ensures SplitOn(Join(pieces, c), c) == pieces
    decreases |pieces|
  {
    if |pieces| > 1 {
      var head := pieces[0];
      var tail := Join(pieces[1..], c);
      var s := head + [c] + tail;
      assert Join(pieces, c) == s;
      assert head in pieces;
      FirstIndexAfterPiece(head, c, tail);
      assert s[|head|] == c;
      assert c in s;
      assert s[..|head|] == head;
      assert s[|head| + 1..] == tail;
      assert SplitOn(s, c) == [head] + SplitOn(tail, c);
      forall p | p in pieces[1..] ensures c !in p { assert p in pieces; }
      SplitOnJoin(pieces[1..], c);
      assert pieces == [head] + pieces[1..];
    } else {
      assert pieces[0] in pieces;
    }
  }

  /** Some piece at index `k` or later is non-empty. */
  predicate HasNonEmptyFrom(pieces: seq<string>, k: nat) {
    exists j :: k <= j < |pieces| && pieces[j] != ""
  }

  lemma HasNonEmptyCons(x: string, tail: seq<string>)
    ensures HasNonEmptyFrom([x] + tail, 0) <==> x != "" || HasNonEmptyFrom(tail, 0)
    ensures HasNonEmptyFrom([x] + tail, 1) <==> HasNonEmptyFrom(tail, 0)
  {
    var ps := [x] + tail;
    if HasNonEmptyFrom(tail, 0) {
      var j :| 0 <= j < |tail| && tail[j] != "";
      assert ps[j + 1] == tail[j];
    }
    if HasNonEmptyFrom(ps, 1) {
      var j :| 1 <= j < |ps| && ps[j] != "";
      assert tail[j - 1] == ps[j];
    }
    if x != "" { assert ps[0] == x; }
    if HasNonEmptyFrom(ps, 0) {
      var j :| 0 <= j < |ps| && ps[j] != "";
      if j > 0 { assert tail[j - 1] == ps[j]; }
    }
  }

  /** Some piece of `SplitOn` is non-empty exactly when `s` holds a char other than `c`. */
  lemma {:induction false} SplitOnHasNonEmpty(s: string, c: char)
    ensures HasNonEmptyFrom(SplitOn(s, c), 0) <==> !AllChar(s, c)
    decreases |s|
  {
    if c in s {
      var i := FirstIndex(s, c);
      var rest := s[i + 1..];
      assert SplitOn(s, c) == [s[..i]] + SplitOn(rest, c);
      HasNonEmptyCons(s[..i], SplitOn(rest, c));
      SplitOnHasNonEmpty(rest, c);
      if i > 0 {
        assert s[0] in s[..i];
      } else {
        assert AllChar(s, c) <==> AllChar(rest, c) by {
          if AllChar(rest, c) {
            forall k | 0 <= k < |s| ensures s[k] == c {
              if k > 0 { assert s[k] == rest[k - 1]; }
            }
          }
          if AllChar(s, c) {
            forall k | 0 <= k < |rest| ensures rest[k] == c { assert rest[k] == s[k + 1]; }
          }
        }
      }
    } else {
      var pieces := SplitOn(s, c);
      assert pieces == [s];
      if |s| > 0 {
        assert s[0] in s && s[0] != c;
        assert pieces[0] != "";
      } else {
        assert !HasNonEmptyFrom(pieces, 0);
      }
    }
  }

  /** `split` with no limit removes the trailing empty strings of the result. */
  function DropTrailingEmpty(pieces: seq<string>): (r: seq<string>)
    ensures |r| <= |pieces| && r == pieces[..|r|]
    ensures forall k :: |r| <= k < |pieces| ==> pieces[k] == ""
    ensures r == [] || r[|r| - 1] != ""
    decreases |pieces|
  {
    if |pieces| > 0 && pieces[|pieces| - 1] == "" then DropTrailingEmpty(pieces[..|pieces| - 1])
    else pieces
  }

  /** More than `k` pieces survive exactly when some piece at or after `k` is non-empty. */
  lemma DropTrailingEmptyLength(pieces: seq<string>, k: nat)
    ensures |DropTrailingEmpty(pieces)| > k <==> HasNonEmptyFrom(pieces, k)
  {
    var r := DropTrailingEmpty(pieces);
    if |r| > k {
      assert pieces[|r| - 1] == r[|r| - 1];
    }
  }

  /**
   * `s.split(p)` where `p` is a regular expression matching the single
   * char `c`: `[s]` when `c` does not occur, otherwise every piece between
   * occurrences of `c` with the trailing empty pieces removed.
   */
  function JavaSplit(s: string, c: char): seq<string> {
    if c in s then DropTrailingEmpty(SplitOn(s, c)) else [s]
  }

  /** No piece `split` returns holds the separator. */
  lemma JavaSplitPiecesFree(s: string, c: char)
    ensures forall p :: p in JavaSplit(s, c) ==> c !in p
  {
    if c in s {
      var pieces := SplitOn(s, c);
      var r := DropTrailingEmpty(pieces);
      forall p | p in r ensures c !in p {
        var k :| 0 <= k < |r| && r[k] == p;
        assert pieces[k] == p;
      }
    }
  }

  /**
   * How many pieces `split` returns for a string holding `c`, and what the
   * first two are: none when `s` is all `c`; one when everything after the
   * first `c` is `c`; otherwise the text before the first `c` and the text
   * from there up to the next `c` (or the end).
   */
  lemma {:induction false} JavaSplitAtFirst(s: string, c: char)
    requires c in s
    ensures var i := FirstIndex(s, c);
      var rest := s[i + 1..];
      var parts := JavaSplit(s, c);
      && (|parts| == 0 <==> AllChar(s, c))
      && (|parts| >= 2 <==> !AllChar(rest, c))
      && (|parts| >= 1 ==> parts[0] == s[..i])
      && (|parts| >= 2 ==> parts[1] == (if c in rest then rest[..FirstIndex(rest, c)] else rest))
  {
    var i := FirstIndex(s, c);
    var rest := s[i + 1..];
    var tail := SplitOn(rest, c);
    var pieces := [s[..i]] + tail;
    assert SplitOn(s, c) == pieces;
    DropTrailingEmptyLength(pieces, 0);
    DropTrailingEmptyLength(pieces, 1);
    SplitOnHasNonEmpty(s, c);
    SplitOnHasNonEmpty(rest, c);
    HasNonEmptyCons(s[..i], tail);
    assert pieces[1] == tail[0];
  }

  // ----------------------------------------------------------- compareTo

  /**
   * `a.compareTo(b) < 0`: at the first differing index `a` has the smaller
   * char, or `a` is a proper prefix of `b`.
   */
  predicate LexLess(a: string, b: string)
    decreases |a|
  {
    |b| > 0 && (|a| == 0 || a[0] < b[0] || (a[0] == b[0] && LexLess(a[1..], b[1..])))
  }

  lemma {:induction false} LexLessIrreflexive(a: string)
    ensures !LexLess(a, a)
    decreases |a|
  {
    if |a| > 0 { LexLessIrreflexive(a[1..]); }
  }

  lemma {:induction false} LexLessAsymmetric(a: string, b: string)
    ensures !(LexLess(a, b) && LexLess(b, a))
    decreases |a|
  {
    if |a| > 0 && |b| > 0 && a[0] == b[0] { LexLessAsymmetric(a[1..], b[1..]); }
  }

  lemma {:induction false} LexLessTotal(a: string, b: string)
    requires a != b
    ensures LexLess(a, b) || LexLess(b, a)
    decreases |a|
  {
    if |a| > 0 && |b| > 0 && a[0] == b[0] {
      assert a == [a[0]] + a[1..] && b == [b[0]] + b[1..];
      LexLessTotal(a[1..], b[1..]);
    }
  }

  lemma {:induction false} LexLessTransitive(a: string, b: string, c: string)
    requires LexLess(a, b) && LexLess(b, c)
    ensures LexLess(a, c)
    decreases |a|
  {
    if |a| > 0 && a[0] == b[0] && b[0] == c[0] {
      LexLessTransitive(a[1..], b[1..], c[1..]);
    }
  }
}
