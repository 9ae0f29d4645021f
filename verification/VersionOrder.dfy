/** The ordering of version strings (`version_key`, `compare_versions` in
    vidaio/autoupdater/service.py): only the leading dotted numeric spine counts, shorter spines are
    padded with zeros. Digits and white space are the ASCII ones. */
module VersionOrder {

  // -- reading the spine ------------------------------------------------------------

  predicate IsDigit(c: char) { '0' <= c <= '9' }

  predicate IsSpace(c: char) { c in " \t\n\r" || c as int in {11, 12, 28, 29, 30, 31} }

  function Digit(c: char): nat
    requires IsDigit(c)
  {
    c as int - '0' as int
  }

  /** How many digits the string starts with. */
  function DigitCount(s: string): (n: nat)
    ensures n <= |s| && (forall i :: 0 <= i < n ==> IsDigit(s[i])) && (n < |s| ==> !IsDigit(s[n]))
  {
    if s != "" && IsDigit(s[0]) then DigitCount(s[1..]) + 1 else 0
  }

  function NumberOf(digits: string): nat
    requires forall i :: 0 <= i < |digits| ==> IsDigit(digits[i])
  {
    if digits == "" then 0 else 10 * NumberOf(digits[..|digits| - 1]) + Digit(digits[|digits| - 1])
  }

  /** Numbers separated by dots; a dot without a digit behind it ends the spine. */
  function Numbers(s: string): seq<nat>
    decreases |s|
  {
    var n := DigitCount(s);
    if n == 0 then []
    else
      var rest := s[n..];
      [NumberOf(s[..n])] + (if |rest| > 1 && rest[0] == '.' && IsDigit(rest[1]) then Numbers(rest[1..]) else [])
  }

  function SkipSpaces(s: string): string {
    if s != "" && IsSpace(s[0]) then SkipSpaces(s[1..]) else s
  }

  function VersionKey(version: string): seq<nat> {
    var s := SkipSpaces(version);
    Numbers(if s != "" && s[0] == 'v' then s[1..] else s)
  }

  // -- the order ------------------------------------------------------------------------

  function At(key: seq<nat>, i: nat): nat { if i < |key| then key[i] else 0 }

  /** Lexicographic order of the first `width` components from `i` on, zeros where a key has none. */
  function Lex(a: seq<nat>, b: seq<nat>, i: nat, width: nat): (r: int)
    ensures r == -1 || r == 0 || r == 1
    decreases width - i
  {
    if i >= width then 0
    else if At(a, i) < At(b, i) then -1
    else if At(a, i) > At(b, i) then 1
    else Lex(a, b, i + 1, width)
  }

  function Max(a: nat, b: nat): nat { if a < b then b else a }

  function CompareKeys(a: seq<nat>, b: seq<nat>): int { Lex(a, b, 0, Max(|a|, |b|)) }

  function Compare(candidate: string, baseline: string): int {
    CompareKeys(VersionKey(candidate), VersionKey(baseline))
  }

  function Padded(key: seq<nat>, width: nat): (r: seq<nat>)
    requires |key| <= width
    ensures |r| == width && forall i :: 0 <= i < width ==> r[i] == At(key, i)
  {
    key + seq(width - |key|, i => 0)
  }

  /** `compare_versions`: pad to equal width, then compare the tuples. */
  method CompareVersions(candidate: string, baseline: string) returns (r: int)
    ensures r == Compare(candidate, baseline)
  {
    var a, b := VersionKey(candidate), VersionKey(baseline);
    var width := Max(|a|, |b|);
    var pa, pb := Padded(a, width), Padded(b, width);
    var i := 0;
    while i < width && pa[i] == pb[i]
      invariant 0 <= i <= width && Lex(a, b, 0, width) == Lex(a, b, i, width)
    {
      i := i + 1;
    }
    return if i == width then 0 else if pa[i] > pb[i] then 1 else -1;
  }

  // -- a total preorder -----------------------------------------------------------------

  lemma {:induction false} LexBeyond(a: seq<nat>, b: seq<nat>, i: nat, width: nat)
    requires |a| <= i && |b| <= i
    ensures Lex(a, b, i, width) == 0
    decreases width - i
  {
    if i < width { LexBeyond(a, b, i + 1, width); }
  }

  /** Padding further changes nothing. */
  lemma {:induction false} WidthIrrelevant(a: seq<nat>, b: seq<nat>, i: nat, width: nat, wider: nat)
    requires |a| <= width && |b| <= width <= wider
    ensures Lex(a, b, i, width) == Lex(a, b, i, wider)
    decreases width - i
  {
    if i < width { WidthIrrelevant(a, b, i + 1, width, wider); } else { LexBeyond(a, b, i, wider); }
  }

  lemma {:induction false} LexFlips(a: seq<nat>, b: seq<nat>, i: nat, width: nat)
    ensures Lex(a, b, i, width) == -Lex(b, a, i, width)
    decreases width - i
  {
    if i < width { LexFlips(a, b, i + 1, width); }
  }

  lemma {:induction false} LexChains(a: seq<nat>, b: seq<nat>, c: seq<nat>, i: nat, width: nat)
    requires Lex(a, b, i, width) <= 0 && Lex(b, c, i, width) <= 0
    ensures Lex(a, c, i, width) <= 0
    ensures Lex(a, c, i, width) == 0 ==> Lex(a, b, i, width) == 0 && Lex(b, c, i, width) == 0
    decreases width - i
  {
    if i < width && At(a, i) == At(b, i) == At(c, i) { LexChains(a, b, c, i + 1, width); }
  }

  /** Total: the two directions of a comparison are opposite, and a version is lateral to itself. */
  lemma CompareIsTotal(a: string, b: string)
    ensures Compare(a, b) == -Compare(b, a) && Compare(a, a) == 0
  {
    LexFlips(VersionKey(a), VersionKey(b), 0, Max(|VersionKey(a)|, |VersionKey(b)|));
    LexFlips(VersionKey(a), VersionKey(a), 0, |VersionKey(a)|);
  }

  /** Transitive, although each comparison pads to its own width; and lateral only if both were. */
  lemma CompareIsTransitive(a: string, b: string, c: string)
    requires Compare(a, b) <= 0 && Compare(b, c) <= 0
    ensures Compare(a, c) <= 0
    ensures Compare(a, c) == 0 ==> Compare(a, b) == 0 && Compare(b, c) == 0
  {
    var x, y, z := VersionKey(a), VersionKey(b), VersionKey(c);
    var width := Max(Max(|x|, |y|), |z|);
    WidthIrrelevant(x, y, 0, Max(|x|, |y|), width);
    WidthIrrelevant(y, z, 0, Max(|y|, |z|), width);
    WidthIrrelevant(x, z, 0, Max(|x|, |z|), width);
    LexChains(x, y, z, 0, width);
  }

  /** Two versions are lateral exactly when their spines agree up to trailing zeros. */
  lemma LateralIsEqualPadded(a: string, b: string)
    ensures Compare(a, b) == 0 <==> forall i: nat :: At(VersionKey(a), i) == At(VersionKey(b), i)
  {
    var x, y := VersionKey(a), VersionKey(b);
    LexZero(x, y, 0, Max(|x|, |y|));
  }

  lemma {:induction false} LexZero(a: seq<nat>, b: seq<nat>, i: nat, width: nat)
    ensures Lex(a, b, i, width) == 0 <==> forall k: nat :: i <= k < width ==> At(a, k) == At(b, k)
    decreases width - i
  {
    if i < width { LexZero(a, b, i + 1, width); }
  }

  /** The first component in which the spines differ decides: a version is newer exactly when it is the
      larger one there. */
  lemma FirstDifferenceDecides(a: string, b: string)
    ensures Compare(a, b) == 1 <==> exists i: nat :: DiffersFirst(VersionKey(a), VersionKey(b), i)
    ensures Compare(a, b) == -1 <==> exists i: nat :: DiffersFirst(VersionKey(b), VersionKey(a), i)
  {
    var x, y := VersionKey(a), VersionKey(b);
    LexDecides(x, y, Max(|x|, |y|));
    LexDecides(y, x, Max(|x|, |y|));
    LexFlips(x, y, 0, Max(|x|, |y|));
    assert Max(|x|, |y|) == Max(|y|, |x|);
  }

  /** Up to `i` the two agree, and there the first is larger; missing components are zeros. */
  predicate DiffersFirst(a: seq<nat>, b: seq<nat>, i: nat) {
    At(a, i) > At(b, i) && forall k: nat :: k < i ==> At(a, k) == At(b, k)
  }

  lemma LexDecides(a: seq<nat>, b: seq<nat>, width: nat)
    requires |a| <= width && |b| <= width
    ensures Lex(a, b, 0, width) == 1 <==> exists i: nat :: DiffersFirst(a, b, i)
  {
    if i: nat :| DiffersFirst(a, b, i) {
      LexSkips(a, b, 0, i, width);
    }
    if Lex(a, b, 0, width) == 1 {
      var i := LexFinds(a, b, 0, width);
      assert DiffersFirst(a, b, i);
    }
  }

  lemma {:induction false} LexSkips(a: seq<nat>, b: seq<nat>, i: nat, k: nat, width: nat)
    requires i <= k < width && forall t: nat :: i <= t < k ==> At(a, t) == At(b, t)
    ensures Lex(a, b, i, width) == Lex(a, b, k, width)
    decreases k - i
  {
    if i < k { LexSkips(a, b, i + 1, k, width); }
  }

  lemma {:induction false} LexFinds(a: seq<nat>, b: seq<nat>, i: nat, width: nat) returns (k: nat)
    requires Lex(a, b, i, width) == 1
    ensures i <= k < width && At(a, k) > At(b, k) && forall t: nat :: i <= t < k ==> At(a, t) == At(b, t)
    decreases width - i
  {
    if At(a, i) > At(b, i) { k := i; } else { k := LexFinds(a, b, i + 1, width); }
  }

  /** White space in front is skipped, and a string that does not start with digits has no spine. */
  lemma {:induction false} SpacesAreSkipped(spaces: string, s: string)
    requires forall i :: 0 <= i < |spaces| ==> IsSpace(spaces[i])
    requires s == "" || !IsSpace(s[0])
    ensures SkipSpaces(spaces + s) == s && VersionKey(spaces + s) == VersionKey(s)
  {
    if spaces == "" {
      assert spaces + s == s;
      if s != "" { SkipNothing(s); }
    } else {
      assert (spaces + s)[1..] == spaces[1..] + s;
      SpacesAreSkipped(spaces[1..], s);
    }
  }

  lemma NoSpine(s: string)
    requires s == "" || (!IsSpace(s[0]) && !IsDigit(s[0]) && s[0] != 'v')
    ensures VersionKey(s) == [] && VersionKey("v" + s) == []
  {
    if s != "" { SkipNothing(s); }
    SkipNothing("v" + s);
    assert ("v" + s)[1..] == s;
    assert DigitCount(s) == 0;
  }

  /** A version without digits behaves as version 0: it is lateral to another one exactly when all
      components of that one are zero. */
  lemma EmptySpineIsZero(a: string, b: string)
    requires VersionKey(a) == []
    ensures Compare(a, b) == 0 <==> forall i :: 0 <= i < |VersionKey(b)| ==> VersionKey(b)[i] == 0
    ensures Compare(a, b) <= 0
  {
    LateralIsEqualPadded(a, b);
    var y := VersionKey(b);
    if Compare(a, b) == 0 {
      forall i | 0 <= i < |y| ensures y[i] == 0 { assert At(y, i) == At([], i); }
    }
    NothingBelowZero(y, 0, |y|);
  }

  lemma {:induction false} NothingBelowZero(y: seq<nat>, i: nat, width: nat)
    ensures Lex([], y, i, width) <= 0
    decreases width - i
  {
    if i < width { NothingBelowZero(y, i + 1, width); }
  }

  /** The module's own comment calls any change to or from a version without digits lateral; going
      from such a version to 1.0 is an upgrade. */
  lemma EmptySpineIsNotLateral()
    ensures VersionKey("nightly") == [] && VersionKey("1.0") == [1, 0]
    ensures Compare("1.0", "nightly") == 1 && Compare("nightly", "1.0") == -1
  {
    assert SkipSpaces("nightly") == "nightly" && SkipSpaces("1.0") == "1.0";
    assert DigitCount("nightly") == 0;
    ReadsBack([1, 0], "");
    assert Shown(1) == "1" && Shown(0) == "0";
    assert Rendered([0]) == "0" && Rendered([1, 0]) == "1" + "." + Rendered([1, 0][1..]);
    assert [1, 0][1..] == [0];
    assert Rendered([1, 0]) + "" == "1.0";
    assert Lex([1, 0], [], 0, 2) == 1 && Lex([], [1, 0], 0, 2) == -1;
  }

  // -- a round trip -------------------------------------------------------------------------

  function Shown(n: nat): (r: string)
    ensures r != "" && forall i :: 0 <= i < |r| ==> IsDigit(r[i])
  {
    if n < 10 then [('0' as int + n) as char] else Shown(n / 10) + [('0' as int + n % 10) as char]
  }

  function Rendered(key: seq<nat>): string
    requires key != []
  {
    if |key| == 1 then Shown(key[0]) else Shown(key[0]) + "." + Rendered(key[1..])
  }

  lemma {:induction false} NumberShown(n: nat)
    ensures NumberOf(Shown(n)) == n
  {
    if n < 10 {
      assert Shown(n)[..0] == "";
    } else {
      NumberShown(n / 10);
      var s := Shown(n);
      assert s[..|s| - 1] == Shown(n / 10);
    }
  }

  lemma {:induction false} DigitsThenOther(digits: string, rest: string)
    requires forall i :: 0 <= i < |digits| ==> IsDigit(digits[i])
    requires rest == "" || !IsDigit(rest[0])
    ensures DigitCount(digits + rest) == |digits|
  {
    if digits == "" {
      assert digits + rest == rest;
    } else {
      assert (digits + rest)[1..] == digits[1..] + rest;
      DigitsThenOther(digits[1..], rest);
    }
  }

  /** What may follow a spine without becoming part of it. */
  predicate EndsSpine(suffix: string) {
    suffix == "" || (!IsDigit(suffix[0]) && !(|suffix| > 1 && suffix[0] == '.' && IsDigit(suffix[1])))
  }

  predicate Continues(rest: string) { |rest| > 1 && rest[0] == '.' && IsDigit(rest[1]) }

  /** Reading one number off the front. */
  lemma NumbersOnce(digits: string, rest: string)
    requires digits != "" && forall i :: 0 <= i < |digits| ==> IsDigit(digits[i])
    requires rest == "" || !IsDigit(rest[0])
    ensures Numbers(digits + rest) == [NumberOf(digits)] + (if Continues(rest) then Numbers(rest[1..]) else [])
  {
    DigitsThenOther(digits, rest);
    var s := digits + rest;
    assert s[..|digits|] == digits && s[|digits|..] == rest;
  }

  lemma {:induction false} NumbersRendered(key: seq<nat>, suffix: string)
    requires key != [] && EndsSpine(suffix)
    ensures Numbers(Rendered(key) + suffix) == key
  {
    var head := Shown(key[0]);
    NumberShown(key[0]);
    if |key| == 1 {
      NumbersOnce(head, suffix);
    } else {
      var tail := Rendered(key[1..]) + suffix;
      RenderedStartsWithDigit(key[1..]);
      NumbersRendered(key[1..], suffix);
      Grouped(head, Rendered(key[1..]), suffix);
      NumbersOnce(head, "." + tail);
      assert ("." + tail)[1..] == tail;
    }
  }

  lemma Grouped(a: string, b: string, c: string)
    ensures a + "." + b + c == a + ("." + (b + c))
  {}

  lemma RenderedStartsWithDigit(key: seq<nat>)
    requires key != []
    ensures Rendered(key) != "" && IsDigit(Rendered(key)[0])
  {
    assert IsDigit(Shown(key[0])[0]);
  }

  lemma SkipNothing(s: string)
    requires s != "" && !IsSpace(s[0])
    ensures SkipSpaces(s) == s
  {}

  /** Every spine reads back from its decimal form, with or without a leading v and whatever follows. */
  lemma ReadsBack(key: seq<nat>, suffix: string)
    requires key != [] && EndsSpine(suffix)
    ensures VersionKey(Rendered(key) + suffix) == key && VersionKey("v" + (Rendered(key) + suffix)) == key
  {
    var s := Rendered(key) + suffix;
    RenderedStartsWithDigit(key);
    NumbersRendered(key, suffix);
    assert s[0] == Rendered(key)[0];
    SkipNothing(s);
    var v := "v" + s;
    SkipNothing(v);
    assert v[1..] == s;
  }
}
