/** The Python string operations the report pipeline relies on, stated on
    `seq<char>`: `str.strip()`, `str.lower()`, the `in` test, `str.find`,
    `str.split('\n')` and `'\n'.join`, slicing `s[:n]`, `str(n)` for a natural
    number, and the `for i, x in enumerate(xs, 1): s += f(i, x)` idiom. */
module PyText {

  import opened Wrappers

  /** The characters `str.isspace()` accepts, which `str.strip()` removes. */
  predicate IsSpace(c: char) {
    || c == ' ' || c == '\t' || c == '\n' || c == '\r' || c == '\U{b}' || c == '\U{c}'
    || ('\U{1c}' <= c <= '\U{1f}') || c == '\U{85}' || c == '\U{a0}' || c == '\U{1680}'
    || ('\U{2000}' <= c <= '\U{200a}') || c == '\U{2028}' || c == '\U{2029}'
    || c == '\U{202f}' || c == '\U{205f}' || c == '\U{3000}'
  }

  /** How many whitespace characters open `s`. */
  function LeadingSpaces(s: string): (n: nat)
    ensures n <= |s|
    ensures forall k :: 0 <= k < n ==> IsSpace(s[k])
    ensures n < |s| ==> !IsSpace(s[n])
  {
    if s != [] && IsSpace(s[0]) then 1 + LeadingSpaces(s[1..]) else 0
  }

  /** How many whitespace characters close `s`. */
  function TrailingSpaces(s: string): (n: nat)
    ensures n <= |s|
    ensures forall k :: |s| - n <= k < |s| ==> IsSpace(s[k])
    ensures n < |s| ==> !IsSpace(s[|s| - 1 - n])
  {
    if s != [] && IsSpace(s[|s| - 1]) then 1 + TrailingSpaces(s[..|s| - 1]) else 0
  }

  /** Python's `s.strip()`. */
  function Strip(s: string): string {
    var t := s[LeadingSpaces(s)..];
    t[..|t| - TrailingSpaces(t)]
  }

  /** A leading space does not change what `strip()` leaves. */
  lemma StripSpaceBefore(s: string)
    ensures Strip(" " + s) == Strip(s)
  {
    var t := " " + s;
    assert t[1..] == s;
    assert LeadingSpaces(t) == 1 + LeadingSpaces(s);
    assert t[LeadingSpaces(t)..] == s[LeadingSpaces(s)..];
  }

  /** Two non-space characters of `s` survive `strip()` together with all
      that lies between them. */
  lemma StripKeeps(s: string, i: nat, j: nat)
    requires i <= j < |s| && !IsSpace(s[i]) && !IsSpace(s[j])
    ensures |Strip(s)| >= j - i + 1
    ensures i == 0 ==> Strip(s)[0] == s[0]
  {
    var a := LeadingSpaces(s);
    assert a <= i;
    var t := s[a..];
    assert t[j - a] == s[j];
    var b := TrailingSpaces(t);
    assert b <= |t| - 1 - (j - a);
  }

  /** Python's `str.lower()` on ASCII letters. */
  function LowerChar(c: char): char {
    if 'A' <= c <= 'Z' then (c as int + 32) as char else c
  }

  function Lower(s: string): (r: string)
    ensures |r| == |s|
    ensures forall k :: 0 <= k < |s| ==> r[k] == LowerChar(s[k])
  {
    seq(|s|, k requires 0 <= k < |s| => LowerChar(s[k]))
  }

  /** `sub` occurs in `s` starting at index `i`. */
  predicate OccursAt(s: string, sub: string, i: int) {
    0 <= i && i + |sub| <= |s| && s[i..i + |sub|] == sub
  }

  /** Python's `sub in s`. */
  predicate Contains(s: string, sub: string) {
    exists i | 0 <= i <= |s| - |sub| :: OccursAt(s, sub, i)
  }

  lemma ContainsMiddle(a: string, sub: string, b: string)
    ensures OccursAt(a + sub + b, sub, |a|) && Contains(a + sub + b, sub)
  {
    assert (a + sub + b)[|a|..|a| + |sub|] == sub;
    assert OccursAt(a + sub + b, sub, |a|);
  }

  lemma ContainsWithin(a: string, s: string, b: string, sub: string)
    requires Contains(s, sub)
    ensures Contains(a + s + b, sub)
  {
    var i :| 0 <= i <= |s| - |sub| && OccursAt(s, sub, i);
    assert (a + s + b)[|a| + i..|a| + i + |sub|] == s[i..i + |sub|];
    assert OccursAt(a + s + b, sub, |a| + i);
  }

  /** The texts `keys` occur in `s` one after the other, without overlapping:
      the last key occurs somewhere, and the others in order before it. */
  predicate InOrder(s: string, keys: seq<string>)
    decreases |keys|
  {
    keys == [] ||
    var last := keys[|keys| - 1];
    exists i | 0 <= i <= |s| - |last| :: OccursAt(s, last, i) && InOrder(s[..i], keys[..|keys| - 1])
  }

  /** A text to either side of an occurrence does not remove it. */
  lemma ContainsEither(a: string, b: string, sub: string)
    requires Contains(a, sub) || Contains(b, sub)
    ensures Contains(a + b, sub)
  {
    if Contains(a, sub) {
      ContainsWithin("", a, b, sub);
      assert "" + a + b == a + b;
    } else {
      ContainsWithin(a, b, "", sub);
      assert a + b + "" == a + b;
    }
  }

  lemma ContainsSelf(s: string)
    ensures Contains(s, s)
  {
    assert s[0..|s|] == s;
    assert OccursAt(s, s, 0);
  }

  /** Containment is transitive. */
  lemma ContainsTransitive(s: string, mid: string, sub: string)
    requires Contains(s, mid) && Contains(mid, sub)
    ensures Contains(s, sub)
  {
    var i :| 0 <= i <= |s| - |mid| && OccursAt(s, mid, i);
    assert s == s[..i] + mid + s[i + |mid|..];
    ContainsWithin(s[..i], mid, s[i + |mid|..], sub);
  }

  /** A key appended, with any text after it, behind a text that already
      holds the other keys in order. */
  lemma InOrderSnoc(s: string, keys: seq<string>, key: string, rest: string)
    requires InOrder(s, keys)
    ensures InOrder(s + (key + rest), keys + [key])
  {
    var t := s + (key + rest);
    var ks := keys + [key];
    assert ks[|ks| - 1] == key && ks[..|ks| - 1] == keys;
    assert t[..|s|] == s;
    assert t[|s|..|s| + |key|] == key;
    assert OccursAt(t, key, |s|);
  }

  /** A text that starts with a visible character, followed by one whose
      last but one character is visible, loses at most its last character
      to stripping. */
  lemma StripEnds(s: string, tail: string)
    requires |s| > 0 && !IsSpace(s[0]) && |tail| >= 2 && !IsSpace(tail[|tail| - 2])
    ensures |Strip(s + tail)| >= |s| + |tail| - 1
  {
    StripKeeps(s + tail, 0, |s| + |tail| - 2);
  }

  /** Appending is associative: the step each appending loop takes. */
  lemma AppendAssoc(a: string, b: string, c: string)
    ensures (a + b) + c == a + (b + c)
  {
  }

  /** Python's `s.find(sub, i)` for `0 <= i`: the first index at or after `i`
      where `sub` occurs, or -1 when there is none. */
  function FindFrom(s: string, sub: string, i: nat): (r: int)
    ensures r == -1 || (i <= r && OccursAt(s, sub, r))
    ensures forall k :: i <= k && (r == -1 || k < r) ==> !OccursAt(s, sub, k)
    decreases |s| - i
  {
    if i + |sub| > |s| then -1
    else if s[i..i + |sub|] == sub then i
    else FindFrom(s, sub, i + 1)
  }

  /** Python's `s.find(sub)`: the first index where `sub` occurs, or -1. */
  function Find(s: string, sub: string): (r: int)
    ensures r == -1 <==> !Contains(s, sub)
    ensures r == -1 || OccursAt(s, sub, r)
    ensures forall k :: 0 <= k && (r == -1 || k < r) ==> !OccursAt(s, sub, k)
  {
    FindFrom(s, sub, 0)
  }

  /** Python's `s.startswith(p)`. */
  /** The first `c` of a text is the one after a prefix without `c`. */
  lemma FindAfter(p: string, c: char, rest: string)
    requires c !in p
    ensures Find(p + [c] + rest, [c]) == |p|
  {
    var s := p + [c] + rest;
    assert s[|p|..|p| + 1] == [c];
    assert OccursAt(s, [c], |p|) && Contains(s, [c]);
    assert forall k :: 0 <= k < |p| ==> s[k..k + 1] == [p[k]] && !OccursAt(s, [c], k);
  }

  /** The lines of two lines joined by a line break. */
  lemma SplitTwo(first: string, second: string, sep: char)
    requires sep !in first && sep !in second
    ensures Split(first + [sep] + second, sep) == [first, second]
  {
    SplitAround(first, sep, second);
    SplitWithoutSeparator(second, sep);
  }

  predicate StartsWith(s: string, p: string) {
    |p| <= |s| && s[..|p|] == p
  }

  /** Python's `s.endswith(suffix)`. */
  predicate EndsWith(s: string, suffix: string) {
    |suffix| <= |s| && s[|s| - |suffix|..] == suffix
  }

  /** Putting `p` in front keeps a prefix, lengthened by `p`. */
  lemma StartsWithBefore(p: string, s: string, q: string)
    requires StartsWith(s, q)
    ensures StartsWith(p + s, p + q)
  {
    assert (p + s)[..|p + q|] == p + s[..|q|];
  }

  /** A prefix that lacks the suffix's first character cannot supply any of
      the suffix: `p + s` ends with it exactly when `s` does. */
  lemma EndsWithAfter(p: string, s: string, suffix: string)
    requires |suffix| >= 1 && suffix[0] !in p
    ensures EndsWith(p + s, suffix) <==> EndsWith(s, suffix)
  {
    var t := p + s;
    if EndsWith(s, suffix) {
      assert t[|t| - |suffix|..] == s[|s| - |suffix|..];
    }
  }

  /** Python's `min(a, b)`, which bounds every `xs[:n]` taken below. */
  function Min(a: nat, b: nat): nat {
    if a < b then a else b
  }

  /** Python's `s[:n]` for `n >= 0`. */
  function Take(s: string, n: nat): (r: string)
    ensures |r| == if |s| <= n then |s| else n
    ensures r == s[..|r|]
  {
    if |s| <= n then s else s[..n]
  }

  /** Python's `s.replace(' ', '_')`. */
  function SpacesToUnderscores(s: string): (r: string)
    ensures |r| == |s| && ' ' !in r
    ensures forall k :: 0 <= k < |s| ==> r[k] == if s[k] == ' ' then '_' else s[k]
  {
    seq(|s|, k requires 0 <= k < |s| => if s[k] == ' ' then '_' else s[k])
  }

  /** Replacing spaces keeps a suffix without spaces or underscores: the
      result ends with it exactly when `s` does. */
  lemma SpacesToUnderscoresEndsWith(s: string, suffix: string)
    requires ' ' !in suffix && '_' !in suffix
    ensures EndsWith(SpacesToUnderscores(s), suffix) <==> EndsWith(s, suffix)
  {
    var r := SpacesToUnderscores(s);
    if EndsWith(r, suffix) {
      forall k | 0 <= k < |suffix|
        ensures s[|s| - |suffix|..][k] == suffix[k]
      {
        assert r[|r| - |suffix|..][k] == suffix[k];
      }
    }
    if EndsWith(s, suffix) {
      forall k | 0 <= k < |suffix|
        ensures r[|r| - |suffix|..][k] == suffix[k]
      {
        assert s[|s| - |suffix|..][k] == suffix[k];
      }
    }
  }

  /** Python's `s.split(sep)` for a one-character separator. */
  function Split(s: string, sep: char): (parts: seq<string>)
    ensures |parts| >= 1
    ensures forall k :: 0 <= k < |parts| ==> sep !in parts[k]
  {
    if s == [] then [""]
    else
      var rest := Split(s[1..], sep);
      if s[0] == sep then [""] + rest
      else [[s[0]] + rest[0]] + rest[1..]
  }

  /** Python's `sep.join(parts)` for a one-character separator. */
  function Join(parts: seq<string>, sep: char): string {
    if parts == [] then ""
    else if |parts| == 1 then parts[0]
    else parts[0] + [sep] + Join(parts[1..], sep)
  }

  /** Joining the pieces of a split with the same separator gives back the text. */
  lemma {:induction false} JoinSplit(s: string, sep: char)
    ensures Join(Split(s, sep), sep) == s
  {
    if s != [] {
      var rest := Split(s[1..], sep);
      JoinSplit(s[1..], sep);
      if s[0] == sep {
        assert Split(s, sep) == [""] + rest;
        assert ([""] + rest)[1..] == rest;
        assert Join([""] + rest, sep) == "" + [sep] + Join(rest, sep);
      } else {
        var parts := [[s[0]] + rest[0]] + rest[1..];
        assert Split(s, sep) == parts;
        if |rest| == 1 {
          assert Join(parts, sep) == [s[0]] + rest[0];
        } else {
          assert parts[1..] == rest[1..];
          assert Join(parts, sep) == [s[0]] + rest[0] + [sep] + Join(rest[1..], sep);
          assert Join(rest, sep) == rest[0] + [sep] + Join(rest[1..], sep);
        }
      }
    }
  }

  /** Splitting a text made of a separator-free piece, the separator and a
      rest gives the piece followed by the pieces of the rest. */
  lemma {:induction false} SplitAround(x: string, sep: char, rest: string)
    requires sep !in x
    ensures Split(x + [sep] + rest, sep) == [x] + Split(rest, sep)
    decreases |x|
  {
    var s := x + [sep] + rest;
    if x == [] {
      assert s[0] == sep && s[1..] == rest;
    } else {
      assert s[0] == x[0] && s[1..] == x[1..] + [sep] + rest;
      assert sep !in x[1..];
      SplitAround(x[1..], sep, rest);
      assert [x[0]] + x[1..] == x;
    }
  }

  /** Splitting a join of separator-free pieces gives back the pieces. */
  lemma {:induction false} SplitJoin(parts: seq<string>, sep: char)
    requires |parts| >= 1
    requires forall k :: 0 <= k < |parts| ==> sep !in parts[k]
    ensures Split(Join(parts, sep), sep) == parts
    decreases |parts|
  {
    if |parts| == 1 {
      SplitWithoutSeparator(parts[0], sep);
    } else {
      SplitAround(parts[0], sep, Join(parts[1..], sep));
      SplitJoin(parts[1..], sep);
      assert [parts[0]] + parts[1..] == parts;
    }
  }

  /** A text without the separator splits into itself alone. */
  lemma {:induction false} SplitWithoutSeparator(s: string, sep: char)
    requires sep !in s
    ensures Split(s, sep) == [s]
  {
    if s != [] {
      assert sep !in s[1..];
      SplitWithoutSeparator(s[1..], sep);
      assert [s[0]] + s[1..] == s;
    }
  }

  function DigitChar(d: nat): char
    requires d < 10
  {
    ('0' as int + d) as char
  }

  predicate IsDigit(c: char) {
    '0' <= c <= '9'
  }

  /** Python's `str(n)` for a natural number. */
  function NatToString(n: nat): (r: string)
    ensures |r| >= 1
    ensures forall k :: 0 <= k < |r| ==> IsDigit(r[k])
  {
    if n < 10 then [DigitChar(n)] else NatToString(n / 10) + [DigitChar(n % 10)]
  }

  /** Python's `int(ds)` for a string of ASCII digits. */
  function DigitsValue(ds: string): nat
    requires forall k :: 0 <= k < |ds| ==> IsDigit(ds[k])
  {
    if ds == [] then 0
    else assert IsDigit(ds[|ds| - 1]); 10 * DigitsValue(ds[..|ds| - 1]) + (ds[|ds| - 1] as int - '0' as int)
  }

  /** Reading back what `str(n)` wrote gives `n`. */
  lemma {:induction false} DigitsValueOfNatToString(n: nat)
    ensures DigitsValue(NatToString(n)) == n
  {
    if n >= 10 {
      var r := NatToString(n);
      DigitsValueOfNatToString(n / 10);
      assert r[..|r| - 1] == NatToString(n / 10);
    }
  }

  /** The maximal run of digits that opens `s`. */
  function LeadingDigits(s: string): (ds: string)
    ensures |ds| <= |s| && ds == s[..|ds|]
    ensures forall k :: 0 <= k < |ds| ==> IsDigit(ds[k])
    ensures |ds| < |s| ==> !IsDigit(s[|ds|])
  {
    if s != [] && IsDigit(s[0]) then [s[0]] + LeadingDigits(s[1..]) else []
  }

  /** The value of the first maximal digit run in `s`, as
      `int(re.findall(r'\d+', s)[0])` reads it, or None when `s` has no digit. */
  function FirstNumber(s: string): (r: Option<nat>)
    ensures r.None? <==> forall k :: 0 <= k < |s| ==> !IsDigit(s[k])
  {
    if s == [] then None
    else if IsDigit(s[0]) then Some(DigitsValue(LeadingDigits(s)))
    else FirstNumber(s[1..])
  }

  /** The first maximal digit run of `s`, `re.findall(r'\d+', s)[0]`, or "" when
      `s` has no digit; `FirstNumber` is its value. */
  function FirstDigits(s: string): (ds: string)
    ensures forall k :: 0 <= k < |ds| ==> IsDigit(ds[k])
    ensures ds == [] <==> FirstNumber(s).None?
    ensures ds != [] ==> FirstNumber(s) == Some(DigitsValue(ds))
  {
    if s == [] then []
    else if IsDigit(s[0]) then LeadingDigits(s)
    else FirstDigits(s[1..])
  }

  /** The digits of a number written after a non-digit prefix are the first
      digit run. */
  lemma {:induction false} FirstDigitsAfter(p: string, n: nat, rest: string)
    requires forall k :: 0 <= k < |p| ==> !IsDigit(p[k])
    requires rest == [] || !IsDigit(rest[0])
    ensures FirstDigits(p + NatToString(n) + rest) == NatToString(n)
  {
    var s := p + NatToString(n) + rest;
    if p == [] {
      assert s == NatToString(n) + rest;
      LeadingDigitsOfDigits(NatToString(n), rest);
    } else {
      assert s[1..] == p[1..] + NatToString(n) + rest;
      FirstDigitsAfter(p[1..], n, rest);
    }
  }

  /** A number written after a non-digit prefix is the first number read. */
  lemma {:induction false} FirstNumberAfter(p: string, n: nat, rest: string)
    requires forall k :: 0 <= k < |p| ==> !IsDigit(p[k])
    requires rest == [] || !IsDigit(rest[0])
    ensures FirstNumber(p + NatToString(n) + rest) == Some(n)
  {
    var s := p + NatToString(n) + rest;
    if p == [] {
      assert s == NatToString(n) + rest;
      LeadingDigitsOfDigits(NatToString(n), rest);
      DigitsValueOfNatToString(n);
    } else {
      assert s[1..] == p[1..] + NatToString(n) + rest;
      FirstNumberAfter(p[1..], n, rest);
    }
  }

  lemma {:induction false} LeadingDigitsOfDigits(ds: string, rest: string)
    requires forall k :: 0 <= k < |ds| ==> IsDigit(ds[k])
    requires rest == [] || !IsDigit(rest[0])
    ensures LeadingDigits(ds + rest) == ds
  {
    if ds != [] {
      assert (ds + rest)[1..] == ds[1..] + rest;
      LeadingDigitsOfDigits(ds[1..], rest);
    } else {
      assert ds + rest == rest;
    }
  }

  /** The text of `for i, x in enumerate(xs, start): s += line(i, x)`. */
  function Numbered<T>(xs: seq<T>, start: nat, line: (nat, T) -> string): string {
    if xs == [] then ""
    else Numbered(xs[..|xs| - 1], start, line) + line(start + |xs| - 1, xs[|xs| - 1])
  }

  /** One more turn of the loop appends the next element's line. */
  lemma NumberedSnoc<T>(xs: seq<T>, i: nat, start: nat, line: (nat, T) -> string)
    requires i < |xs|
    ensures Numbered(xs[..i + 1], start, line) == Numbered(xs[..i], start, line) + line(start + i, xs[i])
  {
    assert xs[..i + 1][..i] == xs[..i];
  }

  /** Every element's line, numbered from `start`, is part of the text. */
  lemma {:induction false} NumberedContains<T>(xs: seq<T>, start: nat, line: (nat, T) -> string, i: nat)
    requires i < |xs|
    ensures Contains(Numbered(xs, start, line), line(start + i, xs[i]))
  {
    var n := |xs|;
    var init := Numbered(xs[..n - 1], start, line);
    if i == n - 1 {
      ContainsMiddle(init, line(start + i, xs[i]), "");
      assert init + line(start + i, xs[i]) + "" == Numbered(xs, start, line);
    } else {
      NumberedContains(xs[..n - 1], start, line, i);
      ContainsWithin("", init, line(start + n - 1, xs[n - 1]), line(start + i, xs[i]));
      assert "" + init + line(start + n - 1, xs[n - 1]) == Numbered(xs, start, line);
    }
  }

  /** The text is built from the lines of `xs` alone: equal lines, equal text. */
  lemma {:induction false} NumberedCongruent<T, U>(xs: seq<T>, ys: seq<U>, start: nat,
                                                f: (nat, T) -> string, g: (nat, U) -> string)
    requires |xs| == |ys|
    requires forall k :: 0 <= k < |xs| ==> f(start + k, xs[k]) == g(start + k, ys[k])
    ensures Numbered(xs, start, f) == Numbered(ys, start, g)
  {
    if xs != [] {
      NumberedCongruent(xs[..|xs| - 1], ys[..|ys| - 1], start, f, g);
    }
  }
}
