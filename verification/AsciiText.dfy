/** The parts of Go's strings package the device handler relies on, over ASCII text:
    TrimSpace, ToLower, TrimPrefix and HasPrefix. */
module AsciiText {

  predicate IsSpace(c: char) {
    c == ' ' || c == '\t' || c == '\n' || c == '\U{0B}' || c == '\U{0C}' || c == '\r'
  }

  function LowerChar(c: char): char {
    if 'A' <= c <= 'Z' then (c as int + 32) as char else c
  }

  function ToLower(s: string): (r: string)
    ensures |r| == |s|
    ensures forall i :: 0 <= i < |s| ==> r[i] == LowerChar(s[i])
  {
    seq(|s|, i requires 0 <= i < |s| => LowerChar(s[i]))
  }

  function TrimLeft(s: string): string {
    if s != [] && IsSpace(s[0]) then TrimLeft(s[1..]) else s
  }

  function TrimRight(s: string): string {
    if s != [] && IsSpace(s[|s| - 1]) then TrimRight(s[..|s| - 1]) else s
  }

  function TrimSpace(s: string): string {
    TrimRight(TrimLeft(s))
  }

  /** strings.ToLower(strings.TrimSpace(s)), the normal form of tags, manufacturers and models. */
  function Normalize(s: string): string {
    ToLower(TrimSpace(s))
  }

  predicate HasPrefix(s: string, prefix: string) {
    prefix <= s
  }

  function TrimPrefix(s: string, prefix: string): string {
    if HasPrefix(s, prefix) then s[|prefix|..] else s
  }

  predicate AllSpace(s: string) {
    forall i :: 0 <= i < |s| ==> IsSpace(s[i])
  }

  /** Neither end is a space. */
  predicate Tight(s: string) {
    s != [] ==> !IsSpace(s[0]) && !IsSpace(s[|s| - 1])
  }

  lemma {:induction false} TrimLeftSplits(s: string) returns (cut: string)
    ensures s == cut + TrimLeft(s) && AllSpace(cut)
    ensures TrimLeft(s) != [] ==> !IsSpace(TrimLeft(s)[0])
  {
    cut := [];
    if s != [] && IsSpace(s[0]) {
      var rest := TrimLeftSplits(s[1..]);
      cut := [s[0]] + rest;
    }
  }

  lemma {:induction false} TrimRightSplits(s: string) returns (cut: string)
    ensures s == TrimRight(s) + cut && AllSpace(cut)
    ensures TrimRight(s) != [] ==> !IsSpace(TrimRight(s)[|TrimRight(s)| - 1])
  {
    cut := [];
    if s != [] && IsSpace(s[|s| - 1]) {
      var rest := TrimRightSplits(s[..|s| - 1]);
      cut := rest + [s[|s| - 1]];
    }
  }

  /** TrimSpace cuts spaces from both ends and nothing else. */
  lemma TrimSpaceSplits(s: string) returns (left: string, right: string)
    ensures s == left + TrimSpace(s) + right
    ensures AllSpace(left) && AllSpace(right) && Tight(TrimSpace(s))
  {
    left := TrimLeftSplits(s);
    var t := TrimLeft(s);
    right := TrimRightSplits(t);
    var core := TrimSpace(s);
    assert t == core + right;
    assert core != [] ==> core[0] == t[0];
  }

  lemma {:induction false} TrimLeftDrops(left: string, s: string)
    requires AllSpace(left) && (s != [] ==> !IsSpace(s[0]))
    ensures TrimLeft(left + s) == s
  {
    if left == [] {
      assert left + s == s;
    } else {
      assert (left + s)[1..] == left[1..] + s;
      TrimLeftDrops(left[1..], s);
    }
  }

  lemma {:induction false} TrimLeftOfSpace(left: string)
    requires AllSpace(left)
    ensures TrimLeft(left) == []
  {
    if left != [] { TrimLeftOfSpace(left[1..]); }
  }

  lemma {:induction false} TrimRightDrops(s: string, right: string)
    requires AllSpace(right) && (s != [] ==> !IsSpace(s[|s| - 1]))
    ensures TrimRight(s + right) == s
  {
    if right == [] {
      assert s + right == s;
    } else {
      assert (s + right)[..|s + right| - 1] == s + right[..|right| - 1];
      TrimRightDrops(s, right[..|right| - 1]);
    }
  }

  /** The characterisation of TrimSpace: any padding around a tight core is removed. */
  lemma TrimSpaceOfPadded(left: string, core: string, right: string)
    requires AllSpace(left) && AllSpace(right) && Tight(core)
    ensures TrimSpace(left + core + right) == core
  {
    if core == [] {
      assert AllSpace(left + core + right);
      TrimLeftOfSpace(left + core + right);
    } else {
      assert left + core + right == left + (core + right);
      TrimLeftDrops(left, core + right);
      TrimRightDrops(core, right);
    }
  }

  lemma TightStays(s: string)
    requires Tight(s)
    ensures TrimSpace(s) == s
  {
    TrimSpaceOfPadded([], s, []);
    assert [] + s + [] == s;
  }

  lemma LowerKeepsSpaces(s: string)
    ensures forall i :: 0 <= i < |s| ==> (IsSpace(ToLower(s)[i]) <==> IsSpace(s[i]))
    ensures ToLower(ToLower(s)) == ToLower(s)
  {
    assert ToLower(ToLower(s)) == ToLower(s);
  }

  /** Trimming and lower-casing commute, so Normalize may do them in either order. */
  lemma TrimAndLowerCommute(s: string)
    ensures TrimSpace(ToLower(s)) == ToLower(TrimSpace(s))
  {
    var left, right := TrimSpaceSplits(s);
    var core := TrimSpace(s);
    LowerKeepsSpaces(left);
    LowerKeepsSpaces(core);
    LowerKeepsSpaces(right);
    assert ToLower(s) == ToLower(left) + ToLower(core) + ToLower(right);
    TrimSpaceOfPadded(ToLower(left), ToLower(core), ToLower(right));
  }

  lemma TrimIdempotent(s: string)
    ensures TrimSpace(TrimSpace(s)) == TrimSpace(s)
  {
    var left, right := TrimSpaceSplits(s);
    TrimSpaceOfPadded([], TrimSpace(s), []);
    assert [] + TrimSpace(s) + [] == TrimSpace(s);
  }

  /** Padding and letter case never change a normal form. */
  lemma NormalizeIgnoresPaddingAndCase(left: string, s: string, right: string)
    requires AllSpace(left) && AllSpace(right)
    ensures TrimSpace(left + s + right) == TrimSpace(s)
    ensures Normalize(left + s + right) == Normalize(s)
    ensures Normalize(ToLower(s)) == Normalize(s)
    ensures Normalize(TrimSpace(s)) == Normalize(s)
    ensures Normalize(Normalize(s)) == Normalize(s)
    ensures TrimSpace(Normalize(s)) == Normalize(s)
  {
    var l, r := TrimSpaceSplits(s);
    assert left + s + right == (left + l) + TrimSpace(s) + (r + right);
    TrimSpaceOfPadded(left + l, TrimSpace(s), r + right);
    TrimAndLowerCommute(s);
    TrimIdempotent(s);
    LowerKeepsSpaces(TrimSpace(s));
    TrimAndLowerCommute(TrimSpace(s));
  }

  lemma BlankNormalizesToEmpty(s: string)
    ensures TrimSpace(s) == "" <==> Normalize(s) == ""
  {
  }
}
