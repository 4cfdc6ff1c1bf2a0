/**
 * The string operations of the JavaScript runtime that the dashboard relies on:
 * `trim`, `toLowerCase`, `startsWith`, `includes` and `split` on one character.
 * Strings are sequences of characters.
 */
module Text {

  /** The characters `String.prototype.trim` removes: ECMAScript WhiteSpace and LineTerminator. */
  predicate IsSpace(c: char) {
    || c == ' ' || c == '\t' || c == '\n' || c == '\r'
    || c == '\U{000B}' || c == '\U{000C}' || c == '\U{00A0}' || c == '\U{1680}'
    || ('\U{2000}' <= c <= '\U{200A}')
    || c == '\U{2028}' || c == '\U{2029}' || c == '\U{202F}' || c == '\U{205F}'
    || c == '\U{3000}' || c == '\U{FEFF}'
  }

  /** Neither the first nor the last character is white space. */
  predicate IsTrimmed(s: string) {
    s == [] || (!IsSpace(s[0]) && !IsSpace(s[|s| - 1]))
  }

  /** `s` with its leading white space removed. */
  function TrimStart(s: string): (r: string)
    ensures |r| <= |s| && r == s[|s| - |r|..]
    ensures forall i :: 0 <= i < |s| - |r| ==> IsSpace(s[i])
    ensures r == [] || !IsSpace(r[0])
  {
    if s != [] && IsSpace(s[0]) then TrimStart(s[1..]) else s
  }

  /** `s` with its trailing white space removed. */
  function TrimEnd(s: string): (r: string)
    ensures |r| <= |s| && r == s[..|r|]
    ensures forall i :: |r| <= i < |s| ==> IsSpace(s[i])
    ensures r == [] || !IsSpace(r[|r| - 1])
  {
    if s != [] && IsSpace(s[|s| - 1]) then TrimEnd(s[..|s| - 1]) else s
  }

  /** `r` sits in `s` starting at index `a`. */
  predicate SliceAt(s: string, a: int, r: string) {
    0 <= a <= |s| - |r| && s[a..a + |r|] == r
  }

  /**
   * `String.prototype.trim`: the slice of `s` left once white space is removed
   * from both ends.
   */
  function Trim(s: string): (r: string)
    ensures IsTrimmed(r) && |r| <= |s|
  {
    TrimEnd(TrimStart(s))
  }

  /** What `Trim` removes is white space at the two ends; what it keeps is one slice of `s`. */
  lemma TrimSlice(s: string)
    ensures exists a :: SliceAt(s, a, Trim(s))
                        && (forall i :: 0 <= i < a ==> IsSpace(s[i]))
                        && (forall i :: a + |Trim(s)| <= i < |s| ==> IsSpace(s[i]))
  {
    var t := TrimStart(s);
    var r := TrimEnd(t);
    KeptSlice(s, t, r);
    assert SliceAt(s, |s| - |t|, Trim(s));
  }

  /** A prefix `r` of a suffix `t` of `s` is a slice of `s`; what follows `r` in `s` follows it in `t`. */
  lemma KeptSlice(s: string, t: string, r: string)
    requires |t| <= |s| && t == s[|s| - |t|..]
    requires |r| <= |t| && r == t[..|r|]
    requires forall i :: |r| <= i < |t| ==> IsSpace(t[i])
    ensures var a := |s| - |t|;
            && s[a..a + |r|] == r
            && forall i :: a + |r| <= i < |s| ==> IsSpace(s[i])
  {
    var a := |s| - |t|;
    forall i | a + |r| <= i < |s| ensures IsSpace(s[i]) {
      assert s[i] == t[i - a];
    }
  }

  /** Trimming a trimmed string changes nothing. */
  lemma TrimTrimmed(s: string)
    requires IsTrimmed(s)
    ensures Trim(s) == s
  {
  }

  /** Every character of `Trim(s)` occurs in `s`. */
  lemma TrimChars(s: string)
    ensures forall c :: c in Trim(s) ==> c in s
  {
    var t := TrimStart(s);
    var r := TrimEnd(t);
    KeptSlice(s, t, r);
    SliceChars(s, |s| - |t|, r);
  }

  /** Every character of a slice of `s` occurs in `s`. */
  lemma SliceChars(s: string, a: int, r: string)
    requires SliceAt(s, a, r)
    ensures forall c :: c in r ==> c in s
  {
    forall c | c in r ensures c in s {
      var i :| 0 <= i < |r| && r[i] == c;
      assert s[a + i] == c;
    }
  }

  /** A string that is white space from end to end trims to the empty string. */
  lemma {:induction false} TrimAllSpace(s: string)
    requires forall i :: 0 <= i < |s| ==> IsSpace(s[i])
    ensures Trim(s) == []
  {
    if s != [] {
      TrimAllSpace(s[1..]);
    }
  }

  /** `toLowerCase` on one character; only the ASCII letters are folded. */
  function LowerChar(c: char): char {
    if 'A' <= c <= 'Z' then (c as int + 32) as char else c
  }

  /** `String.prototype.toLowerCase`, character by character. */
  function ToLower(s: string): (r: string)
    ensures |r| == |s|
  {
    seq(|s|, i requires 0 <= i < |s| => LowerChar(s[i]))
  }

  /** Folding case distributes over concatenation. */
  lemma ToLowerAppend(a: string, b: string)
    ensures ToLower(a + b) == ToLower(a) + ToLower(b)
  {
  }

  /** Folding case does not touch white space, so it commutes with trimming. */
  lemma {:induction false} TrimToLower(s: string)
    ensures Trim(ToLower(s)) == ToLower(Trim(s))
  {
    var t := TrimStart(s);
    assert ToLower(s)[|s| - |t|..] == ToLower(t);
    TrimStartToLower(s);
    TrimEndToLower(t);
  }

  /** Folding case keeps white space as it is and never produces it. */
  lemma LowerSpace(c: char)
    ensures IsSpace(LowerChar(c)) <==> IsSpace(c)
    ensures IsSpace(c) ==> LowerChar(c) == c
  {
  }

  lemma {:induction false} TrimStartToLower(s: string)
    ensures TrimStart(ToLower(s)) == ToLower(TrimStart(s))
  {
    if s != [] {
      var l := ToLower(s);
      LowerSpace(s[0]);
      assert l[0] == LowerChar(s[0]);
      if IsSpace(s[0]) {
        assert l[1..] == ToLower(s[1..]);
        TrimStartToLower(s[1..]);
      }
    }
  }

  lemma {:induction false} TrimEndToLower(s: string)
    ensures TrimEnd(ToLower(s)) == ToLower(TrimEnd(s))
  {
    if s != [] {
      var l := ToLower(s);
      LowerSpace(s[|s| - 1]);
      assert l[|s| - 1] == LowerChar(s[|s| - 1]);
      if IsSpace(s[|s| - 1]) {
        assert l[..|s| - 1] == ToLower(s[..|s| - 1]);
        TrimEndToLower(s[..|s| - 1]);
      }
    }
  }

  /** `String.prototype.startsWith`. */
  predicate StartsWith(s: string, prefix: string) {
    |prefix| <= |s| && s[..|prefix|] == prefix
  }

  /** `String.prototype.includes`: `t` occurs somewhere in `s`. */
  predicate Contains(s: string, t: string) {
    StartsWith(s, t) || (s != [] && Contains(s[1..], t))
  }

  /** `Contains` holds exactly when `t` sits in `s` at some index. */
  lemma {:induction false} ContainsIff(s: string, t: string)
    ensures Contains(s, t) <==> exists i :: SliceAt(s, i, t)
  {
    if StartsWith(s, t) {
      assert SliceAt(s, 0, t);
    } else if s != [] {
      ContainsIff(s[1..], t);
      if Contains(s[1..], t) {
        var i :| SliceAt(s[1..], i, t);
        SliceAtTail(s, i + 1, t);
      } else {
        forall i | SliceAt(s, i, t) ensures false {
          assert i != 0;
          SliceAtTail(s, i, t);
        }
      }
    }
  }

  /** An occurrence past the first character is an occurrence in the tail, one index earlier. */
  lemma SliceAtTail(s: string, i: int, t: string)
    requires s != [] && i >= 1
    ensures SliceAt(s, i, t) <==> SliceAt(s[1..], i - 1, t)
  {
    if 0 <= i - 1 <= |s[1..]| - |t| {
      assert s[1..][i - 1..i - 1 + |t|] == s[i..i + |t|];
    }
  }

  /** The empty string occurs in every string. */
  lemma ContainsEmpty(s: string)
    ensures Contains(s, [])
  {
    assert StartsWith(s, []);
  }

  /** A string that contains `t + u` contains `t`. */
  lemma ContainsPrefix(s: string, t: string, u: string)
    requires Contains(s, t + u)
    ensures Contains(s, t)
  {
    ContainsIff(s, t + u);
    var i :| SliceAt(s, i, t + u);
    assert s[i..i + |t|] == (t + u)[..|t|] == t;
    assert SliceAt(s, i, t);
    ContainsIff(s, t);
  }

  /** One more character read by `Split`: a separator opens a new piece, anything else extends the last. */
  function SplitStep(prev: seq<string>, c: char, d: char): (r: seq<string>)
    requires |prev| >= 1
  {
    if c == d then prev + [[]] else prev[..|prev| - 1] + [prev[|prev| - 1] + [c]]
  }

  /** `String.prototype.split` on one character. */
  function Split(s: string, d: char): (r: seq<string>)
    ensures |r| >= 1
    decreases |s|
  {
    if s == [] then [[]]
    else
      assert s == s[..|s| - 1] + [s[|s| - 1]];
      SplitStep(Split(s[..|s| - 1], d), s[|s| - 1], d)
  }

  /** `Array.prototype.join` with one separator character. */
  function Join(parts: seq<string>, d: char): string
    requires |parts| >= 1
  {
    if |parts| == 1 then parts[0] else Join(parts[..|parts| - 1], d) + [d] + parts[|parts| - 1]
  }

  /** Joining the pieces of a split with the same separator gives the string back. */
  lemma {:induction false} JoinSplit(s: string, d: char)
    ensures Join(Split(s, d), d) == s
    decreases |s|
  {
    if s != [] {
      var init := s[..|s| - 1];
      var c := s[|s| - 1];
      assert s == init + [c];
      JoinSplit(init, d);
      if c != d {
        JoinAppendToLast(Split(init, d), d, c);
      }
    }
  }

  /** Appending a character to the last piece appends it to the joined string. */
  lemma JoinAppendToLast(parts: seq<string>, d: char, c: char)
    requires |parts| >= 1
    ensures Join(parts[..|parts| - 1] + [parts[|parts| - 1] + [c]], d) == Join(parts, d) + [c]
  {
    var n := |parts|;
    var q := parts[..n - 1] + [parts[n - 1] + [c]];
    if n > 1 {
      assert q[..n - 1] == parts[..n - 1];
      calc {
        Join(q, d);
        Join(parts[..n - 1], d) + [d] + (parts[n - 1] + [c]);
        (Join(parts[..n - 1], d) + [d] + parts[n - 1]) + [c];
      }
    }
  }

  /** Splitting `a + b`, where `b` holds no separator, extends the last piece of `a`'s split by `b`. */
  lemma SplitAppendPiece(a: string, b: string, d: char)
    requires d !in b
    ensures var sa := Split(a, d);
            Split(a + b, d) == sa[..|sa| - 1] + [sa[|sa| - 1] + b]
  {
    var sa := Split(a, d);
    LastSplit(sa);
    SplitExtendLast(a, b, d, sa[..|sa| - 1], sa[|sa| - 1]);
  }

  /** The same, with the pieces of `a` named: `init` followed by the last piece `last`. */
  lemma {:induction false} SplitExtendLast(a: string, b: string, d: char, init: seq<string>, last: string)
    requires d !in b && Split(a, d) == init + [last]
    ensures Split(a + b, d) == init + [last + b]
    decreases |b|
  {
    if b == [] {
      assert a + b == a && last + b == last;
    } else {
      NotInPrefix(b, d);
      SplitExtendLast(a, b[..|b| - 1], d, init, last);
      SplitAppendSnoc(a, b, d);
      StepOnLast(init, last + b[..|b| - 1], b[|b| - 1], d);
      AppendLast(last, b);
    }
  }

  /** Splitting `a + b` reads the last character of `b` after splitting the rest. */
  lemma SplitAppendSnoc(a: string, b: string, d: char)
    requires b != []
    ensures Split(a + b, d) == SplitStep(Split(a + b[..|b| - 1], d), b[|b| - 1], d)
  {
    SnocOfAppend(a, b);
    SplitSnoc(a + b, d);
  }

  /** Dropping the last element of `a + b`, for a non-empty `b`, drops the last element of `b`. */
  lemma SnocOfAppend<T>(a: seq<T>, b: seq<T>)
    requires b != []
    ensures (a + b)[..|a + b| - 1] == a + b[..|b| - 1]
    ensures (a + b)[|a + b| - 1] == b[|b| - 1]
  {
  }

  lemma AppendAssoc<T>(x: seq<T>, y: seq<T>, z: seq<T>)
    ensures (x + y) + z == x + (y + z)
  {
  }

  /** A value absent from a non-empty sequence is absent from its prefix without the last element. */
  lemma NotInPrefix<T>(s: seq<T>, c: T)
    requires c !in s && s != []
    ensures c !in s[..|s| - 1]
  {
    assert forall i :: 0 <= i < |s| - 1 ==> s[..|s| - 1][i] == s[i];
  }

  lemma LastSplit<T>(s: seq<T>)
    requires |s| > 0
    ensures s == s[..|s| - 1] + [s[|s| - 1]]
  {
  }

  lemma AppendLast<T>(x: seq<T>, y: seq<T>)
    requires |y| > 0
    ensures (x + y[..|y| - 1]) + [y[|y| - 1]] == x + y
  {
    LastSplit(y);
  }

  /** A character other than the separator extends the last piece. */
  lemma StepOnLast(init: seq<string>, x: string, c: char, d: char)
    requires c != d
    ensures SplitStep(init + [x], c, d) == init + [x + [c]]
  {
    assert (init + [x])[..|init|] == init;
  }


  /** No piece of a split contains the separator. */
  lemma {:induction false} SplitPiecesFree(s: string, d: char)
    ensures var r := Split(s, d);
            forall k :: 0 <= k < |r| ==> d !in r[k]
    decreases |s|
  {
    if s != [] {
      var init := s[..|s| - 1];
      var c := s[|s| - 1];
      SplitPiecesFree(init, d);
      SplitSnoc(s, d);
      var p := Split(init, d);
      if c != d {
        var last := p[|p| - 1] + [c];
        assert d !in last by {
          assert d !in p[|p| - 1];
        }
      }
    }
  }

  /** One unfolding of `Split` at the last character. */
  lemma SplitSnoc(s: string, d: char)
    requires |s| > 0
    ensures Split(s, d) == SplitStep(Split(s[..|s| - 1], d), s[|s| - 1], d)
  {
  }

  /** Splitting pieces joined by a separator none of them contains gives the pieces back. */
  lemma {:induction false} SplitJoin(parts: seq<string>, d: char)
    requires |parts| >= 1
    requires forall k :: 0 <= k < |parts| ==> d !in parts[k]
    ensures Split(Join(parts, d), d) == parts
    decreases |parts|
  {
    var n := |parts|;
    var last := parts[n - 1];
    if n == 1 {
      SplitAppendPiece([], last, d);
      assert [] + last == last;
    } else {
      var init := parts[..n - 1];
      var a := Join(init, d) + [d];
      SplitJoin(init, d);
      assert a[..|a| - 1] == Join(init, d);
      assert Split(a, d) == init + [[]];
      SplitExtendLast(a, last, d, init, []);
      assert [] + last == last;
      LastSplit(parts);
      assert Join(parts, d) == a + last;
    }
  }
}
