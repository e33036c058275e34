/** The order of version strings: dot-separated numbers, a missing component counting as zero. */
module Version {
  import opened Text
  import Strconv

  function Numbers(parts: seq<string>): (ns: seq<int>)
    ensures |ns| == |parts|
  {
    seq(|parts|, i requires 0 <= i < |parts| => Strconv.Atoi(parts[i]).0)
  }

  /** The components of a trimmed version string; text that is not a number counts as zero. */
  function Components(version: string): seq<int> { Numbers(Split(Trim(version), '.')) }

  function Join(parts: seq<string>): string
    requires parts != []
  {
    if |parts| == 1 then parts[0] else Join(parts[..|parts| - 1]) + "." + parts[|parts| - 1]
  }

  predicate NoDots(s: string) { forall i | 0 <= i < |s| :: s[i] != '.' }

  lemma JoinMore(front: seq<string>, last: string)
    ensures Join(front + [last]) == if front == [] then last else Join(front) + "." + last
  {
    assert (front + [last])[..|front|] == front;
  }

  lemma Regroup(a: string, b: string, c: char)
    ensures a + "." + (b + [c]) == a + "." + b + [c]
  {
  }

  lemma JoinGrows(front: seq<string>, last: string, c: char)
    ensures Join(front + [last + [c]]) == Join(front + [last]) + [c]
  {
    JoinMore(front, last);
    JoinMore(front, last + [c]);
    if front != [] {
      Regroup(Join(front), last, c);
    }
  }

  lemma JoinAtDot(parts: seq<string>)
    requires parts != []
    ensures Join(parts + [""]) == Join(parts) + "."
  {
    JoinMore(parts, "");
    assert Join(parts) + "." + "" == Join(parts) + ".";
  }

  /** The parts have no dots and join to the string. */
  predicate Joins(parts: seq<string>, s: string) {
    parts != [] && Join(parts) == s && forall i | 0 <= i < |parts| :: NoDots(parts[i])
  }

  lemma DotJoins(parts: seq<string>, s: string)
    requires Joins(parts, s)
    ensures Joins(parts + [""], s + ".")
  {
    JoinAtDot(parts);
  }

  lemma LetterJoins(before: seq<string>, last: string, c: char, s: string)
    requires Joins(before + [last], s) && c != '.'
    ensures Joins(before + [last + [c]], s + [c])
  {
    JoinGrows(before, last, c);
    var parts, more := before + [last], before + [last + [c]];
    forall i | 0 <= i < |more| ensures NoDots(more[i]) {
      assert NoDots(parts[i]);
    }
  }

  lemma JoinsNext(ps: seq<string>, front: string, c: char, more: seq<string>)
    requires Joins(ps, front) && more == if c == '.' then ps + [""] else WithTail(ps, [c])
    ensures Joins(more, front + [c])
  {
    if c == '.' {
      DotJoins(ps, front);
      assert front + "." == front + [c];
    } else {
      assert ps == ps[..|ps| - 1] + [ps[|ps| - 1]];
      LetterJoins(ps[..|ps| - 1], ps[|ps| - 1], c, front);
    }
  }

  lemma NextIsJoined(front: string, c: char)
    requires Joins(Split(front, '.'), front)
    ensures Joins(Split(front + [c], '.'), front + [c])
  {
    SplitOneMore(front, '.', c);
    JoinsNext(Split(front, '.'), front, c, Split(front + [c], '.'));
  }

  /** The parts are what lies between the dots: they contain none, and joined by dots they are the
      string again. */
  lemma {:induction false} SplitIsJoined(s: string)
    ensures Joins(Split(s, '.'), s)
  {
    if s != "" {
      var front, c := s[..|s| - 1], s[|s| - 1];
      SplitIsJoined(front);
      NextIsJoined(front, c);
      assert front + [c] == s;
    }
  }

  lemma LastPart(front: seq<string>, before: string, last: string)
    requires Split(before, '.') == front && NoDots(last)
    ensures Split(before + "." + last, '.') == front + [last]
  {
    SplitOneMore(before, '.', '.');
    assert before + "." == before + ['.'];
    SplitOfMore(before + ".", '.', last);
    var ps := front + [""];
    assert ps[..|ps| - 1] == front && "" + last == last;
  }

  lemma OnlyPart(s: string)
    requires NoDots(s)
    ensures Split(s, '.') == [s]
  {
    SplitOfMore("", '.', s);
    assert "" + s == s && WithTail([""], s) == [s];
  }

  /** No other parts without dots join to the same string. */
  lemma {:induction false} SplitOfJoin(parts: seq<string>)
    requires parts != [] && forall i | 0 <= i < |parts| :: NoDots(parts[i])
    ensures Split(Join(parts), '.') == parts
    decreases |parts|
  {
    var n := |parts| - 1;
    assert parts[..n] + [parts[n]] == parts;
    JoinMore(parts[..n], parts[n]);
    if n == 0 {
      OnlyPart(parts[0]);
    } else {
      SplitOfJoin(parts[..n]);
      LastPart(parts[..n], Join(parts[..n]), parts[n]);
    }
  }

  function Numerals(ns: seq<nat>): seq<string> {
    seq(|ns|, i requires 0 <= i < |ns| => Strconv.Itoa(ns[i]))
  }

  /** A version written as numbers with dots between them, white space around it or not, has exactly
      those numbers as its components. */
  lemma ComponentsOfNumbers(ns: seq<nat>, version: string)
    requires ns != [] && (forall n <- ns :: n <= Strconv.MAX_INT)
    requires Trim(version) == Join(Numerals(ns))
    ensures Components(version) == ns
  {
    var parts := Numerals(ns);
    forall i | 0 <= i < |ns| ensures NoDots(parts[i]) && Strconv.Atoi(parts[i]).0 == ns[i] {
      assert ns[i] in ns;
      Strconv.AtoiOfItoa(ns[i]);
      assert Strconv.AllDigits(parts[i]);
    }
    SplitOfJoin(parts);
  }

  // ---------------------------------------------------------------- the order

  /** The components continued with zeros for ever. */
  function Pad(v: seq<int>, i: nat): int { if i < |v| then v[i] else 0 }

  /** Lexicographic order on the continued sequences. */
  ghost predicate Less(l: seq<int>, r: seq<int>) {
    exists i: nat :: FirstDifference(l, r, i) && Pad(l, i) < Pad(r, i)
  }

  ghost predicate FirstDifference(l: seq<int>, r: seq<int>, i: nat) {
    Pad(l, i) != Pad(r, i) && forall j: nat | j < i :: Pad(l, j) == Pad(r, j)
  }

  ghost predicate Equal(l: seq<int>, r: seq<int>) { forall i: nat :: Pad(l, i) == Pad(r, i) }

  method CompareVersion(left: string, right: string) returns (c: int)
    ensures c == -1 || c == 0 || c == 1
    ensures c == -1 <==> Less(Components(left), Components(right))
    ensures c == 1 <==> Less(Components(right), Components(left))
    ensures c == 0 <==> Equal(Components(left), Components(right))
  {
    c := CompareComponents(Components(left), Components(right));
  }

  method CompareComponents(l: seq<int>, r: seq<int>) returns (c: int)
    ensures c == -1 || c == 0 || c == 1
    ensures c == -1 <==> Less(l, r)
    ensures c == 1 <==> Less(r, l)
    ensures c == 0 <==> Equal(l, r)
  {
    var maxLen := |l|;
    if |r| > maxLen {
      maxLen := |r|;
    }
    for i := 0 to maxLen
      invariant forall j: nat | j < i :: Pad(l, j) == Pad(r, j)
    {
      var li, ri := 0, 0;
      if i < |l| {
        li := l[i];
      }
      if i < |r| {
        ri := r[i];
      }
      if li > ri {
        DecidedAt(r, l, i);
        return 1;
      }
      if li < ri {
        DecidedAt(l, r, i);
        return -1;
      }
    }
    UndecidedTo(l, r, maxLen);
    c := 0;
  }

  lemma DecidedAt(l: seq<int>, r: seq<int>, i: nat)
    requires forall j: nat | j < i :: Pad(l, j) == Pad(r, j)
    requires Pad(l, i) < Pad(r, i)
    ensures Less(l, r) && !Less(r, l) && !Equal(l, r)
  {
    assert FirstDifference(l, r, i);
    OneWay(l, r);
  }

  lemma UndecidedTo(l: seq<int>, r: seq<int>, n: nat)
    requires |l| <= n && |r| <= n
    requires forall j: nat | j < n :: Pad(l, j) == Pad(r, j)
    ensures Equal(l, r) && !Less(l, r) && !Less(r, l)
  {
  }

  lemma OneWay(l: seq<int>, r: seq<int>)
    requires Less(l, r)
    ensures !Less(r, l) && !Equal(l, r)
  {
  }

  /** Of two version lists exactly one of before, after and equal holds. */
  lemma Trichotomy(l: seq<int>, r: seq<int>)
    ensures Less(l, r) || Less(r, l) || Equal(l, r)
    ensures !(Less(l, r) && Less(r, l)) && !(Less(l, r) && Equal(l, r))
    ensures Equal(l, l) && (Equal(l, r) ==> Equal(r, l))
  {
    if Less(l, r) {
      OneWay(l, r);
    } else if Less(r, l) {
      OneWay(r, l);
    } else {
      NoDifference(l, r, if |l| < |r| then |r| else |l|);
    }
  }

  lemma {:induction false} NoDifference(l: seq<int>, r: seq<int>, n: nat)
    requires !Less(l, r) && !Less(r, l)
    ensures forall j: nat | j < n :: Pad(l, j) == Pad(r, j)
    ensures n >= |l| && n >= |r| ==> Equal(l, r)
  {
    if n > 0 {
      NoDifference(l, r, n - 1);
      if Pad(l, n - 1) != Pad(r, n - 1) {
        assert FirstDifference(l, r, n - 1) && FirstDifference(r, l, n - 1);
      }
    }
  }

  /** The order is transitive and respects equality, for lists of any lengths. */
  lemma Transitive(a: seq<int>, b: seq<int>, c: seq<int>)
    requires Less(a, b) || Equal(a, b)
    requires Less(b, c) || Equal(b, c)
    ensures if Equal(a, b) && Equal(b, c) then Equal(a, c) else Less(a, c)
  {
    if Less(a, b) && Less(b, c) {
      OneWay(a, b);
      var i: nat :| FirstDifference(a, b, i) && Pad(a, i) < Pad(b, i);
      var j: nat :| FirstDifference(b, c, j) && Pad(b, j) < Pad(c, j);
      assert FirstDifference(a, c, if i < j then i else j);
    } else if Less(a, b) {
      OneWay(a, b);
      var i: nat :| FirstDifference(a, b, i) && Pad(a, i) < Pad(b, i);
      assert FirstDifference(a, c, i);
    } else if Less(b, c) {
      OneWay(b, c);
      var j: nat :| FirstDifference(b, c, j) && Pad(b, j) < Pad(c, j);
      assert FirstDifference(a, c, j);
    }
  }

  /** Trailing zeros do not count: 1.2 and 1.2.0 are the same version. */
  lemma TrailingZerosAreIgnored(v: seq<int>, zeros: seq<int>)
    requires forall z <- zeros :: z == 0
    ensures Equal(v, v + zeros)
  {
    forall i: nat ensures Pad(v, i) == Pad(v + zeros, i) {
      if |v| <= i < |v| + |zeros| {
        assert zeros[i - |v|] in zeros;
      }
    }
  }
}
