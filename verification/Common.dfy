/** Small things every component needs: optional values, and text as JavaScript trims and lowers it. */
module Common {

  datatype Option<+T> = None | Some(value: T)

  function Max(a: nat, b: nat): nat {
    if a > b then a else b
  }

  /** White space and line ends, as String.prototype.trim and BigInt strip them. */
  predicate IsBlank(c: char) {
    '\U{9}' <= c <= '\U{D}' || c == ' ' || c == '\U{A0}' || c == '\U{1680}' || '\U{2000}' <= c <= '\U{200A}' ||
    c == '\U{2028}' || c == '\U{2029}' || c == '\U{202F}' || c == '\U{205F}' || c == '\U{3000}' || c == '\U{FEFF}'
  }

  lemma Blanks(c: char)
    ensures IsBlank(' ') && IsBlank('\t') && IsBlank('\n') && IsBlank('\r') && IsBlank('\U{A0}') && IsBlank('\U{FEFF}')
    ensures '!' <= c <= '~' ==> !IsBlank(c)
  {
  }

  function TrimLeft(s: string): (out: string)
    ensures |out| <= |s|
    ensures out == s[|s| - |out|..] && (out == [] || !IsBlank(out[0]))
    ensures forall i | 0 <= i < |s| - |out| :: IsBlank(s[i])
  {
    if s != [] && IsBlank(s[0]) then TrimLeft(s[1..]) else s
  }

  function TrimRight(s: string): (out: string)
    ensures |out| <= |s|
    ensures out == s[..|out|] && (out == [] || !IsBlank(out[|out| - 1]))
    ensures forall i | |out| <= i < |s| :: IsBlank(s[i])
  {
    if s != [] && IsBlank(s[|s| - 1]) then TrimRight(s[..|s| - 1]) else s
  }

  lemma NothingToTrim(s: string)
    requires s != [] && !IsBlank(s[0]) && !IsBlank(s[|s| - 1])
    ensures TrimRight(TrimLeft(s)) == s
  {
  }

  predicate AllBlank(s: string) {
    forall i | 0 <= i < |s| :: IsBlank(s[i])
  }

  lemma {:induction false} TrimLeftOf(before: string, rest: string)
    requires AllBlank(before) && (rest == [] || !IsBlank(rest[0]))
    ensures TrimLeft(before + rest) == rest
  {
    hide IsBlank;
    if before == [] {
      assert before + rest == rest;
    } else {
      assert (before + rest)[1..] == before[1..] + rest;
      TrimLeftOf(before[1..], rest);
    }
  }

  lemma {:induction false} TrimRightOf(front: string, after: string)
    requires AllBlank(after) && (front == [] || !IsBlank(front[|front| - 1]))
    ensures TrimRight(front + after) == front
  {
    hide IsBlank;
    if after == [] {
      assert front + after == front;
    } else {
      var n := |after| - 1;
      assert (front + after)[..|front + after| - 1] == front + after[..n];
      TrimRightOf(front, after[..n]);
    }
  }

  lemma BlanksJoin(before: string, after: string)
    requires AllBlank(before) && AllBlank(after)
    ensures AllBlank(before + after) && before + [] + after == (before + after) + []
  {
    hide IsBlank;
  }

  lemma Regroup(a: string, b: string, c: string)
    ensures a + b + c == a + (b + c)
  {
  }

  lemma TrimmedText(before: string, s: string, after: string)
    requires AllBlank(before) && AllBlank(after)
    requires s == [] || (!IsBlank(s[0]) && !IsBlank(s[|s| - 1]))
    ensures TrimRight(TrimLeft(before + s + after)) == s
  {
    hide AllBlank, IsBlank, TrimLeft, TrimRight;
    if s == [] {
      BlanksJoin(before, after);
      TrimLeftOf(before + after, []);
    } else {
      Regroup(before, s, after);
      TrimLeftOf(before, s + after);
      TrimRightOf(s, after);
    }
  }

  function LowerChar(c: char): char {
    if 'A' <= c <= 'Z' then c - 'A' + 'a' else c
  }

  /** Lower case of ASCII letters; addresses have no others. */
  function Lower(s: string): (out: string)
    ensures |out| == |s|
    ensures forall i | 0 <= i < |s| :: out[i] == LowerChar(s[i])
  {
    seq(|s|, i requires 0 <= i < |s| => LowerChar(s[i]))
  }

  /** Lowered text has no capitals, and what has none stays as it is. */
  lemma LowerTwice(s: string)
    ensures forall i | 0 <= i < |s| :: !('A' <= Lower(s)[i] <= 'Z')
    ensures forall i | 0 <= i < |s| && !('A' <= s[i] <= 'Z') :: Lower(s)[i] == s[i]
    ensures Lower(Lower(s)) == Lower(s)
  {
  }
}
