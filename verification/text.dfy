/** The string operations of Python's `str` that the downloader relies on, over
    `string = seq<char>`: `in` (substring test), `replace`, `split`, `lower` and
    the decimal rendering of an `int` inside an f-string. */
module Text {
  import opened Wrappers

  /** `sub` occurs in `s` starting at position `i`. */
  predicate OccursAt(sub: string, s: string, i: nat)
  {
    i + |sub| <= |s| && s[i..i + |sub|] == sub
  }

  /** Python's `sub in s`: `sub` occurs as a contiguous block of `s`. */
  function IsInfix(sub: string, s: string): (r: bool)
    ensures r <==> exists i: nat :: OccursAt(sub, s, i)
    decreases |s|
  {
    if sub <= s then
      assert OccursAt(sub, s, 0);
      true
    else if |s| <= |sub| then
      false
    else
      var r := IsInfix(sub, s[1..]);
      assert forall i: nat :: OccursAt(sub, s, i + 1) <==> OccursAt(sub, s[1..], i) by {
        forall i: nat ensures OccursAt(sub, s, i + 1) <==> OccursAt(sub, s[1..], i) {
          if i + 1 + |sub| <= |s| {
            SliceOfTail(s, i, |sub|);
          }
        }
      }
      assert !OccursAt(sub, s, 0);
      assert forall i: nat :: OccursAt(sub, s, i) ==> i > 0 && OccursAt(sub, s[1..], i - 1);
      r
  }

  lemma SliceOfTail(s: string, i: nat, len: nat)
    requires i + 1 + len <= |s|
    ensures s[i + 1..i + 1 + len] == s[1..][i..i + len]
  {
  }

  /** Python's `s.replace('', rep)`: `rep` before every character and at the end. */
  function Interleave(s: string, rep: string): string
  {
    if s == [] then rep else rep + [s[0]] + Interleave(s[1..], rep)
  }

  /** Python's `s.replace(pat, rep)`: a single left-to-right pass that replaces every
      non-overlapping occurrence of `pat`; the replacement text is never scanned again. */
  function ReplaceAll(s: string, pat: string, rep: string): (r: string)
    ensures pat != [] && !IsInfix(pat, s) ==> r == s
    decreases |s|
  {
    if pat == [] then Interleave(s, rep)
    else if pat <= s then rep + ReplaceAll(s[|pat|..], pat, rep)
    else if s == [] then []
    else
      InfixOfTail(pat, s);
      [s[0]] + ReplaceAll(s[1..], pat, rep)
  }

  /** Replacing with a non-empty text never empties a non-empty text. */
  lemma ReplaceAllKeepsNonEmpty(s: string, pat: string, rep: string)
    requires s != [] && pat != [] && rep != []
    ensures ReplaceAll(s, pat, rep) != []
  {
  }

  lemma InfixOfTail(sub: string, s: string)
    requires s != []
    ensures IsInfix(sub, s[1..]) ==> IsInfix(sub, s)
  {
    if IsInfix(sub, s[1..]) {
      var i: nat :| OccursAt(sub, s[1..], i);
      SliceOfTail(s, i, |sub|);
      assert OccursAt(sub, s, i + 1);
    }
  }

  /** Replaces every occurrence of the character `c` by `esc`: the encoding that
      `ReplaceAll(_, esc, [c])` undoes. */
  function EscapeChar(s: string, c: char, esc: string): string
  {
    if s == [] then []
    else (if s[0] == c then esc else [s[0]]) + EscapeChar(s[1..], c, esc)
  }

  /** Replacing `esc` by `c` undoes `EscapeChar`, provided no character other than `c`
      itself can start a spurious occurrence of `esc`. */
  lemma {:induction false} ReplaceAllUndoesEscape(s: string, c: char, esc: string)
    requires esc != []
    requires forall i :: 0 <= i < |s| ==> s[i] == c || s[i] != esc[0]
    ensures ReplaceAll(EscapeChar(s, c, esc), esc, [c]) == s
  {
    if s != [] {
      var tail := EscapeChar(s[1..], c, esc);
      ReplaceAllUndoesEscape(s[1..], c, esc);
      if s[0] == c {
        assert EscapeChar(s, c, esc) == esc + tail;
        assert (esc + tail)[|esc|..] == tail;
      } else {
        var e := [s[0]] + tail;
        assert EscapeChar(s, c, esc) == e;
        assert !(esc <= e) by { assert e[0] != esc[0]; }
        assert e[1..] == tail;
      }
    }
  }

  /** Python's `sep.join(parts)` for a one-character separator. */
  function Join(parts: seq<string>, sep: char): string
  {
    if |parts| == 0 then []
    else if |parts| == 1 then parts[0]
    else parts[0] + [sep] + Join(parts[1..], sep)
  }

  /** Python's `s.find(c)`, with "not found" as `None`. */
  function IndexOf(s: string, c: char): (r: Option<nat>)
    ensures r.None? <==> c !in s
    ensures r.Some? ==> r.value < |s| && s[r.value] == c && c !in s[..r.value]
  {
    if s == [] then None
    else if s[0] == c then Some(0)
    else
      match IndexOf(s[1..], c)
      case None => None
      case Some(k) =>
        assert s[..k + 1] == [s[0]] + s[1..][..k];
        Some(k + 1)
  }

  /** The first occurrence of `c` in `a + [c] + b` is the one after `a` when `a` has none. */
  lemma IndexOfAfter(a: string, c: char, b: string)
    requires c !in a
    ensures IndexOf(a + [c] + b, c) == Some(|a|)
  {
    var s := a + [c] + b;
    assert s[|a|] == c;
    assert s[..|a|] == a;
  }

  /** Python's `s.split(sep)` for a one-character separator: the pieces between
      separators, empty pieces included, so there is always at least one. */
  function Split(s: string, sep: char): (parts: seq<string>)
    ensures |parts| >= 1
    ensures |parts| == 1 <==> sep !in s
    ensures forall i :: 0 <= i < |parts| ==> sep !in parts[i]
    decreases |s|
  {
    match IndexOf(s, sep)
    case None => [s]
    case Some(i) => [s[..i]] + Split(s[i + 1..], sep)
  }

  /** Joining the pieces with the separator gives back the text. */
  lemma {:induction false} JoinInvertsSplit(s: string, sep: char)
    ensures Join(Split(s, sep), sep) == s
    decreases |s|
  {
    match IndexOf(s, sep)
    case None =>
    case Some(i) =>
      JoinInvertsSplit(s[i + 1..], sep);
      CutAt(s, i);
      JoinSplitStep(s[..i], s[i + 1..], sep);
  }

  /** A text is the part before position `i`, the character there, and the part after. */
  lemma CutAt(s: string, i: nat)
    requires i < |s|
    ensures s == s[..i] + [s[i]] + s[i + 1..]
  {
  }

  /** The inductive step: the round trip holds for `a + [sep] + b` once it holds for `b`. */
  lemma JoinSplitStep(a: string, b: string, sep: char)
    requires sep !in a
    requires Join(Split(b, sep), sep) == b
    ensures Join(Split(a + [sep] + b, sep), sep) == a + [sep] + b
  {
    SplitAtFirst(a, b, sep);
    JoinCons(a, Split(b, sep), sep);
  }

  lemma JoinCons(head: string, rest: seq<string>, sep: char)
    requires |rest| >= 1
    ensures Join([head] + rest, sep) == head + [sep] + Join(rest, sep)
  {
    assert ([head] + rest)[1..] == rest;
  }

  /** Text before the first separator becomes the first piece; the remainder is split on. */
  lemma SplitAtFirst(a: string, b: string, sep: char)
    requires sep !in a
    ensures Split(a + [sep] + b, sep) == [a] + Split(b, sep)
  {
    var s := a + [sep] + b;
    IndexOfAfter(a, sep, b);
    assert s[..|a|] == a;
    assert s[|a| + 1..] == b;
  }

  /** The first piece of a split only depends on the text up to the first separator. */
  lemma SplitHead(a: string, b: string, sep: char)
    requires sep !in a
    ensures Split(a + b, sep)[0] == a + Split(b, sep)[0]
  {
    match IndexOf(b, sep)
    case None =>
      assert sep !in a + b;
    case Some(j) =>
      var a' := a + b[..j];
      assert sep !in a' by {
        assert sep !in b[..j];
      }
      assert a + b == a' + [sep] + b[j + 1..];
      assert b == b[..j] + [sep] + b[j + 1..];
      SplitAtFirst(a', b[j + 1..], sep);
      SplitAtFirst(b[..j], b[j + 1..], sep);
  }

  /** A text without the separator splits into itself alone. */
  lemma SplitWithoutSeparator(a: string, sep: char)
    requires sep !in a
    ensures Split(a, sep) == [a]
  {
  }

  /** ASCII case folding: Python's `str.lower` restricted to 'A'..'Z'. */
  function LowerChar(ch: char): char
  {
    if 'A' <= ch <= 'Z' then (ch as int - 'A' as int + 'a' as int) as char else ch
  }

  function ToLower(s: string): string
  {
    seq(|s|, i requires 0 <= i < |s| => LowerChar(s[i]))
  }

  /** Lowering twice is lowering once. */
  lemma ToLowerIdempotent(s: string)
    ensures ToLower(ToLower(s)) == ToLower(s)
  {
    forall i | 0 <= i < |s|
      ensures ToLower(ToLower(s))[i] == ToLower(s)[i]
    {
      assert LowerChar(LowerChar(s[i])) == LowerChar(s[i]);
    }
  }

  function DigitChar(d: nat): char
    requires d < 10
  {
    ('0' as int + d) as char
  }

  predicate IsDigit(ch: char)
  {
    '0' <= ch <= '9'
  }

  /** The decimal text of `n`, as Python's `f"{n}"` prints it (no sign, no leading zeros). */
  function Decimal(n: nat): (r: string)
    ensures |r| >= 1
    ensures forall i :: 0 <= i < |r| ==> IsDigit(r[i])
    ensures n > 0 ==> r[0] != '0'
  {
    if n < 10 then [DigitChar(n)] else Decimal(n / 10) + [DigitChar(n % 10)]
  }

  function DigitValue(ch: char): nat
    requires IsDigit(ch)
  {
    ch as int - '0' as int
  }

  /** Reads a string of decimal digits back as a number. */
  function ParseDecimal(s: string): nat
    requires forall i :: 0 <= i < |s| ==> IsDigit(s[i])
  {
    if s == [] then 0
    else ParseDecimal(s[..|s| - 1]) * 10 + DigitValue(s[|s| - 1])
  }

  lemma {:induction false} ParseDecimalInvertsDecimal(n: nat)
    ensures ParseDecimal(Decimal(n)) == n
  {
    if n >= 10 {
      var s := Decimal(n);
      ParseDecimalInvertsDecimal(n / 10);
      assert s[..|s| - 1] == Decimal(n / 10);
    }
  }

  /** Distinct numbers print as distinct decimal texts. */
  lemma DecimalInjective(m: nat, n: nat)
    requires Decimal(m) == Decimal(n)
    ensures m == n
  {
    ParseDecimalInvertsDecimal(m);
    ParseDecimalInvertsDecimal(n);
  }
}
