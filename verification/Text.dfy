/** White space and trimming as strings.TrimSpace defines them. */
module Text {

  predicate IsSpace(c: char) {
    || '\t' <= c <= '\r' || c == ' ' || c == '\U{0085}' || c == '\U{00A0}' || c == '\U{1680}'
    || '\U{2000}' <= c <= '\U{200A}' || c == '\U{2028}' || c == '\U{2029}' || c == '\U{202F}'
    || c == '\U{205F}' || c == '\U{3000}'
  }

  /** White space by code point. */
  lemma SpacesByCode(c: char)
    ensures var n := c as int;
            IsSpace(c)
            <==> n in {9, 10, 11, 12, 13, 32, 0x85, 0xA0, 0x1680, 0x2028, 0x2029, 0x202F, 0x205F, 0x3000}
                 || n in {0x2000, 0x2001, 0x2002, 0x2003, 0x2004, 0x2005, 0x2006, 0x2007, 0x2008,
                          0x2009, 0x200A}
  {
  }

  /** Drops leading characters in the cut set. */
  function TrimLeft(s: string, cut: char -> bool): string {
    if s != [] && cut(s[0]) then TrimLeft(s[1..], cut) else s
  }

  function TrimRight(s: string, cut: char -> bool): string {
    if s != [] && cut(s[|s| - 1]) then TrimRight(s[..|s| - 1], cut) else s
  }

  function TrimBy(s: string, cut: char -> bool): string { TrimRight(TrimLeft(s, cut), cut) }

  function Trim(s: string): string { TrimBy(s, IsSpace) }

  /** Neither edge is in the cut set. */
  predicate Clean(s: string, cut: char -> bool) {
    s != [] ==> !cut(s[0]) && !cut(s[|s| - 1])
  }

  predicate Trimmed(s: string) { Clean(s, IsSpace) }

  lemma {:induction false} TrimLeftShape(s: string, cut: char -> bool)
    ensures var t := TrimLeft(s, cut);
            |t| <= |s| && t == s[|s| - |t|..] && (t != [] ==> !cut(t[0]))
            && (forall i | 0 <= i < |s| - |t| :: cut(s[i]))
  {
    if s != [] && cut(s[0]) {
      var rest := s[1..];
      TrimLeftShape(rest, cut);
      var t := TrimLeft(rest, cut);
      assert rest[|rest| - |t|..] == s[|s| - |t|..];
      forall i | 0 <= i < |s| - |t| ensures cut(s[i]) {
        assert i > 0 ==> s[i] == rest[i - 1];
      }
    }
  }

  lemma {:induction false} TrimRightShape(s: string, cut: char -> bool)
    ensures var t := TrimRight(s, cut);
            |t| <= |s| && t == s[..|t|] && (t != [] ==> !cut(t[|t| - 1]))
            && (forall i | |t| <= i < |s| :: cut(s[i]))
  {
    if s != [] && cut(s[|s| - 1]) {
      var rest := s[..|s| - 1];
      TrimRightShape(rest, cut);
      var t := TrimRight(rest, cut);
      assert rest[..|t|] == s[..|t|];
      forall i | |t| <= i < |s| ensures cut(s[i]) {
        assert i < |rest| ==> s[i] == rest[i];
      }
    }
  }

  lemma TrimByClean(s: string, cut: char -> bool)
    ensures Clean(TrimBy(s, cut), cut)
    ensures TrimBy(s, cut) == s <==> Clean(s, cut)
  {
    var t := TrimLeft(s, cut);
    TrimLeftShape(s, cut);
    TrimRightShape(t, cut);
    var u := TrimRight(t, cut);
    if u != [] {
      assert u[0] == t[0];
    }
  }

  lemma TrimClean(s: string)
    ensures Trimmed(Trim(s))
    ensures Trim(s) == s <==> Trimmed(s)
  {
    TrimByClean(s, IsSpace);
  }

  /** More text on the last of several strings. */
  function WithTail(ls: seq<string>, text: string): seq<string>
    requires ls != []
  {
    ls[..|ls| - 1] + [ls[|ls| - 1] + text]
  }

  lemma TailsJoin(ls: seq<string>, a: string, b: string)
    requires ls != []
    ensures WithTail(ls, "") == ls && WithTail(WithTail(ls, a), b) == WithTail(ls, a + b)
  {
    var last := ls[|ls| - 1];
    assert last + "" == last && last + a + b == last + (a + b);
  }

  // ---------------------------------------------------------------- splitting

  /** The parts of a string between separators. */
  function Split(s: string, separator: char): (parts: seq<string>)
    ensures parts != []
  {
    if s == "" then [""]
    else
      var front := Split(s[..|s| - 1], separator);
      var c := s[|s| - 1];
      if c == separator then front + [""]
      else front[..|front| - 1] + [front[|front| - 1] + [c]]
  }

  lemma SplitOneMore(s: string, separator: char, c: char)
    ensures Split(s + [c], separator)
         == if c == separator then Split(s, separator) + [""] else WithTail(Split(s, separator), [c])
  {
    assert (s + [c])[..|s + [c]| - 1] == s;
  }

  /** Text without separators only makes the last part longer. */
  lemma {:induction false} SplitOfMore(s: string, separator: char, more: string)
    requires forall i | 0 <= i < |more| :: more[i] != separator
    ensures Split(s + more, separator) == WithTail(Split(s, separator), more)
  {
    if more == "" {
      assert s + more == s;
      TailsJoin(Split(s, separator), "", "");
    } else {
      var front, c := more[..|more| - 1], more[|more| - 1];
      SplitOfMore(s, separator, front);
      assert more == front + [c] && s + more == (s + front) + [c];
      SplitOneMore(s + front, separator, c);
      TailsJoin(Split(s, separator), front, [c]);
    }
  }
}
