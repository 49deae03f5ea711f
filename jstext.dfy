/** The handful of JavaScript string operations the application relies on:
    the `\s` character class, `toLowerCase`, `includes`, `Array.prototype.join`,
    `String.prototype.split` on one character, three forms of `replace`, and
    `parseInt` without a radix. */
module JsText {
  import opened Wrappers

  /** Characters matched by `\s` in a JavaScript regular expression
      (the WhiteSpace and LineTerminator productions of ECMAScript). */
  predicate IsWhitespace(c: char) {
    c == '\t' || c == '\n' || c == '\U{B}' || c == '\U{C}' || c == '\r' || c == ' ' ||
    c == '\U{A0}' || c == '\U{1680}' || ('\U{2000}' <= c <= '\U{200A}') ||
    c == '\U{2028}' || c == '\U{2029}' || c == '\U{202F}' || c == '\U{205F}' ||
    c == '\U{3000}' || c == '\U{FEFF}'
  }

  predicate IsUpper(c: char) { 'A' <= c <= 'Z' }

  /** Lower-casing of one character; only the ASCII letters are mapped, each
      capital to the small letter 32 code points above it. */
  function LowerChar(c: char): (r: char)
    ensures IsUpper(c) ==> 'a' <= r <= 'z' && r as int == c as int + 32
    ensures !IsUpper(c) ==> r == c
  {
    if 'A' <= c <= 'Z' then (c as int - 'A' as int + 'a' as int) as char else c
  }

  /** `s.toLowerCase()` restricted to ASCII letters. */
  function ToLower(s: string): (r: string)
    ensures |r| == |s|
    ensures forall i :: 0 <= i < |s| ==> r[i] == LowerChar(s[i])
  {
    seq(|s|, i requires 0 <= i < |s| => LowerChar(s[i]))
  }

  /** Lower-casing twice is lower-casing once. */
  lemma ToLowerIdempotent(s: string)
    ensures ToLower(ToLower(s)) == ToLower(s)
  {
  }

  /** Lower-cased text has no ASCII capital letter left. */
  lemma ToLowerNoCapitals(s: string)
    ensures forall k :: 0 <= k < |s| ==> !IsUpper(ToLower(s)[k])
  {
  }

  /** Two characters that are equal, or the same ASCII letter in two cases. */
  predicate SameLetterIgnoringCase(a: char, b: char) {
    a == b || (IsUpper(a) && b as int == a as int + 32) || (IsUpper(b) && a as int == b as int + 32)
  }

  /** Lower-casing identifies exactly the texts that differ only in the case of ASCII letters. */
  lemma ToLowerEqualIff(s: string, t: string)
    ensures ToLower(s) == ToLower(t) <==>
            |s| == |t| && forall k :: 0 <= k < |s| ==> SameLetterIgnoringCase(s[k], t[k])
  {
    if |s| == |t| && forall k :: 0 <= k < |s| ==> SameLetterIgnoringCase(s[k], t[k]) {
      assert forall k :: 0 <= k < |s| ==> ToLower(s)[k] == ToLower(t)[k];
    }
    if ToLower(s) == ToLower(t) {
      forall k | 0 <= k < |s| ensures SameLetterIgnoringCase(s[k], t[k]) {
        assert LowerChar(s[k]) == LowerChar(t[k]);
      }
    }
  }

  /** `s.includes(sub)`: sub occurs in s at some position. */
  predicate Contains(s: string, sub: string) {
    exists i :: 0 <= i <= |s| && sub <= s[i..]
  }

  /** Text that lacks the first character of sub does not contain sub. */
  lemma MissingFirstChar(s: string, sub: string)
    requires sub != [] && sub[0] !in s
    ensures !Contains(s, sub)
  {
    forall i | 0 <= i <= |s| ensures !(sub <= s[i..]) {
      if i < |s| {
        assert s[i..][0] == s[i];
      }
    }
  }

  /** `parts.join(sep)`: the elements separated by sep, no separator at the ends. */
  function Join(parts: seq<string>, sep: string): string
  {
    if |parts| == 0 then ""
    else if |parts| == 1 then parts[0]
    else parts[0] + sep + Join(parts[1..], sep)
  }

  /** `s.split(c)` for a one-character separator: the pieces between occurrences of c. */
  function Split(s: string, c: char): (r: seq<string>)
    ensures |r| >= 1
  {
    if s == [] then [""]
    else if s[0] == c then [""] + Split(s[1..], c)
    else
      var rest := Split(s[1..], c);
      [[s[0]] + rest[0]] + rest[1..]
  }

  /** A string without the character c splits into itself alone. */
  lemma {:induction false} SplitWithout(a: string, c: char)
    requires c !in a
    ensures Split(a, c) == [a]
  {
    if a != [] {
      SplitWithout(a[1..], c);
      assert [a[0]] + a[1..] == a;
    }
  }

  /** Splitting at the first separator peels off the first piece. */
  lemma {:induction false} SplitAfter(a: string, c: char, b: string)
    requires c !in a
    ensures Split(a + [c] + b, c) == [a] + Split(b, c)
  {
    if a == [] {
      assert a + [c] + b == [c] + b;
      assert ([c] + b)[1..] == b;
    } else {
      var s := a + [c] + b;
      assert s[0] == a[0];
      assert s[1..] == a[1..] + [c] + b;
      SplitAfter(a[1..], c, b);
      assert [a[0]] + a[1..] == a;
    }
  }

  /** Joining pieces that do not contain the separator and splitting again
      gives the pieces back. */
  lemma {:induction false} SplitJoin(parts: seq<string>, c: char)
    requires |parts| >= 1
    requires forall k :: 0 <= k < |parts| ==> c !in parts[k]
    ensures Split(Join(parts, [c]), c) == parts
  {
    if |parts| == 1 {
      SplitWithout(parts[0], c);
    } else {
      SplitJoin(parts[1..], c);
      SplitAfter(parts[0], c, Join(parts[1..], [c]));
      assert [parts[0]] + parts[1..] == parts;
    }
  }

  // ---------------------------------------------------------------------------
  // parseInt(text) without a radix

  predicate IsDigit(c: char) { '0' <= c <= '9' }

  predicate IsHexDigit(c: char) { IsDigit(c) || 'a' <= c <= 'f' || 'A' <= c <= 'F' }

  function DigitValue(c: char): (r: nat)
    requires IsHexDigit(c)
    ensures r < 16
    ensures IsDigit(c) ==> r < 10
  {
    if IsDigit(c) then c as int - '0' as int
    else if 'a' <= c <= 'f' then c as int - 'a' as int + 10
    else c as int - 'A' as int + 10
  }

  /** The text with its leading `\s` characters removed. */
  function TrimStart(s: string): (r: string)
    ensures |r| <= |s| && r == s[|s| - |r|..]
    ensures r != [] ==> !IsWhitespace(r[0])
    decreases |s|
  {
    if s != [] && IsWhitespace(s[0]) then TrimStart(s[1..]) else s
  }

  /** The longest prefix of s made of digits of the given base (10 or 16). */
  function DigitRun(s: string, hex: bool): (r: string)
    ensures r <= s
    ensures forall k :: 0 <= k < |r| ==> (if hex then IsHexDigit(r[k]) else IsDigit(r[k]))
  {
    if s != [] && (if hex then IsHexDigit(s[0]) else IsDigit(s[0]))
    then [s[0]] + DigitRun(s[1..], hex)
    else []
  }

  /** The value of a digit string in the given base, most significant digit first. */
  function DigitsValue(ds: string, base: nat): (r: nat)
    requires forall k :: 0 <= k < |ds| ==> IsHexDigit(ds[k])
  {
    if ds == [] then 0
    else DigitsValue(ds[..|ds| - 1], base) * base + DigitValue(ds[|ds| - 1])
  }

  /** `parseInt(s)`: leading white space is skipped, an optional sign is read,
      a `0x`/`0X` prefix selects base 16; then the longest run of digits is
      read and the rest ignored. No digits at all gives NaN, here None. */
  function ParseInt(s: string): Option<int>
  {
    ParseSigned(TrimStart(s))
  }

  /** The sign step of `parseInt`, on text without leading white space. */
  function ParseSigned(t: string): Option<int>
  {
    if t != [] && (t[0] == '-' || t[0] == '+') then
      match ParseUnsigned(t[1..])
      case None => None
      case Some(v) => Some(if t[0] == '-' then -(v as int) else v as int)
    else
      match ParseUnsigned(t)
      case None => None
      case Some(v) => Some(v as int)
  }

  /** The digits step of `parseInt`: base 16 after `0x`/`0X`, base 10 otherwise. */
  function ParseUnsigned(u: string): Option<nat>
  {
    var hex := |u| >= 2 && u[0] == '0' && (u[1] == 'x' || u[1] == 'X');
    var ds := DigitRun(if hex then u[2..] else u, hex);
    if ds == [] then None else Some(DigitsValue(ds, if hex then 16 else 10))
  }

  /** The decimal text of a natural number, as `String(n)` writes it. */
  function DecimalText(n: nat): (r: string)
    ensures r != []
    ensures forall k :: 0 <= k < |r| ==> IsDigit(r[k])
  {
    if n < 10 then [('0' as int + n) as char]
    else DecimalText(n / 10) + [('0' as int + n % 10) as char]
  }

  lemma {:induction false} DecimalTextValue(n: nat)
    ensures DigitsValue(DecimalText(n), 10) == n
  {
    var r := DecimalText(n);
    if n >= 10 {
      DecimalTextValue(n / 10);
      assert r[..|r| - 1] == DecimalText(n / 10);
    }
  }

  lemma {:induction false} DigitRunAll(s: string)
    requires forall k :: 0 <= k < |s| ==> IsDigit(s[k])
    ensures DigitRun(s, false) == s
  {
    if s != [] {
      DigitRunAll(s[1..]);
      assert [s[0]] + s[1..] == s;
    }
  }

  /** Decimal text of a natural number, optionally with a minus sign, parses back to it. */
  lemma ParseDecimalText(n: nat, negative: bool)
    ensures ParseInt(if negative then "-" + DecimalText(n) else DecimalText(n))
         == Some(if negative then -(n as int) else n as int)
  {
    ParseDecimalDigits(n);
    ParseSignedDigits(DecimalText(n), n);
  }

  /** Text starting with a digit is parsed by the digits step alone; a minus sign negates it. */
  lemma ParseSignedDigits(d: string, n: nat)
    requires d != [] && IsDigit(d[0]) && ParseUnsigned(d) == Some(n)
    ensures ParseInt(d) == Some(n as int)
    ensures ParseInt("-" + d) == Some(-(n as int))
  {
    PositiveSigned(d, n);
    NegativeSigned("-" + d, d, n);
  }

  lemma PositiveSigned(d: string, n: nat)
    requires d != [] && IsDigit(d[0]) && ParseUnsigned(d) == Some(n)
    ensures ParseInt(d) == Some(n as int)
  {
    assert !IsWhitespace(d[0]);
    assert TrimStart(d) == d;
    UnsignedSigned(d, n);
  }

  lemma UnsignedSigned(d: string, n: nat)
    requires d != [] && IsDigit(d[0]) && ParseUnsigned(d) == Some(n)
    ensures ParseSigned(d) == Some(n as int)
  {
  }

  lemma NegativeSigned(s: string, d: string, n: nat)
    requires s == "-" + d && ParseUnsigned(d) == Some(n)
    ensures ParseInt(s) == Some(-(n as int))
  {
    assert s[0] == '-' && s[1..] == d;
    assert TrimStart(s) == s;
  }

  lemma ParseDecimalDigits(n: nat)
    ensures ParseUnsigned(DecimalText(n)) == Some(n)
  {
    NoHexPrefix(n);
    DigitRunAll(DecimalText(n));
    DecimalTextValue(n);
  }

  /** The decimal text of a natural number does not start with `0x`. */
  lemma NoHexPrefix(n: nat)
    ensures !(|DecimalText(n)| >= 2 && DecimalText(n)[0] == '0')
  {
    if n >= 10 { DecimalTextLeading(n); }
  }

  lemma {:induction false} DecimalTextLeading(n: nat)
    requires n >= 10
    ensures DecimalText(n)[0] != '0'
  {
    if n / 10 >= 10 {
      DecimalTextLeading(n / 10);
    }
  }

  /** `s.replace(/\s+/g, rep)`: every maximal run of `\s` characters becomes
      the one character rep. */
  function ReplaceWhitespaceRuns(s: string, rep: char): (r: string)
    ensures |r| <= |s|
    ensures !IsWhitespace(rep) ==> forall k :: 0 <= k < |r| ==> !IsWhitespace(r[k])
    decreases |s|
  {
    if s == [] then []
    else if IsWhitespace(s[0]) then [rep] + ReplaceWhitespaceRuns(TrimStart(s[1..]), rep)
    else [s[0]] + ReplaceWhitespaceRuns(s[1..], rep)
  }

  /** Text without white space is left as it is. */
  lemma {:induction false} ReplaceRunsPlain(s: string, rep: char)
    requires forall k :: 0 <= k < |s| ==> !IsWhitespace(s[k])
    ensures ReplaceWhitespaceRuns(s, rep) == s
  {
    if s != [] {
      ReplaceRunsPlain(s[1..], rep);
      assert [s[0]] + s[1..] == s;
    }
  }

  /** A run of white space followed by text that does not start with white space trims to that text. */
  lemma {:induction false} TrimStartRun(w: string, b: string)
    requires forall k :: 0 <= k < |w| ==> IsWhitespace(w[k])
    requires b == [] || !IsWhitespace(b[0])
    ensures TrimStart(w + b) == b
  {
    if w == [] {
      assert w + b == b;
    } else {
      assert (w + b)[0] == w[0];
      assert (w + b)[1..] == w[1..] + b;
      TrimStartRun(w[1..], b);
    }
  }

  /** Trimming text that ends in a non-white-space character stays inside that text. */
  lemma {:induction false} TrimStartConcat(x: string, y: string)
    requires x != [] && !IsWhitespace(x[|x| - 1])
    ensures TrimStart(x + y) == TrimStart(x) + y
  {
    assert (x + y)[0] == x[0];
    if IsWhitespace(x[0]) {
      assert |x| > 1;
      assert (x + y)[1..] == x[1..] + y;
      TrimStartConcat(x[1..], y);
    }
  }

  /** A maximal run of white space between a and b becomes one rep, and a and b
      are replaced on their own: the replacement works run by run. */
  lemma {:induction false} ReplaceRunsSplit(a: string, w: string, b: string, rep: char)
    requires w != [] && forall k :: 0 <= k < |w| ==> IsWhitespace(w[k])
    requires a == [] || !IsWhitespace(a[|a| - 1])
    requires b == [] || !IsWhitespace(b[0])
    ensures ReplaceWhitespaceRuns(a + w + b, rep) ==
            ReplaceWhitespaceRuns(a, rep) + [rep] + ReplaceWhitespaceRuns(b, rep)
    decreases |a|, 1
  {
    if a == [] {
      RunFirst(w, b, rep);
      EmptyConcat(a, w, b);
    } else if IsWhitespace(a[0]) {
      SplitAfterSpace(a, w, b, rep);
    } else {
      SplitAfterLetter(a, w, b, rep);
    }
  }

  /** ReplaceRunsSplit when a starts with white space. */
  lemma {:induction false} SplitAfterSpace(a: string, w: string, b: string, rep: char)
    requires w != [] && forall k :: 0 <= k < |w| ==> IsWhitespace(w[k])
    requires a != [] && IsWhitespace(a[0]) && !IsWhitespace(a[|a| - 1])
    requires b == [] || !IsWhitespace(b[0])
    ensures ReplaceWhitespaceRuns(a + w + b, rep) ==
            ReplaceWhitespaceRuns(a, rep) + [rep] + ReplaceWhitespaceRuns(b, rep)
    decreases |a|, 0
  {
    var fb := ReplaceWhitespaceRuns(b, rep);
    var t := TrimStart(a[1..]);
    TrimStartConcat(a[1..], w + b);
    assert t != [] && t[|t| - 1] == a[|a| - 1];
    ReplaceRunsSplit(t, w, b, rep);
    calc {
      ReplaceWhitespaceRuns(a + w + b, rep);
      { SpaceFirst(a, w, b, rep); }
      [rep] + ReplaceWhitespaceRuns(TrimStart(a[1..] + (w + b)), rep);
      { Assoc(t, w, b); }
      [rep] + ReplaceWhitespaceRuns(t + w + b, rep);
      [rep] + (ReplaceWhitespaceRuns(t, rep) + [rep] + fb);
      { Regroup([rep], ReplaceWhitespaceRuns(t, rep), [rep], fb); }
      ([rep] + ReplaceWhitespaceRuns(t, rep)) + [rep] + fb;
      { SpaceFirst(a, w, b, rep); }
      ReplaceWhitespaceRuns(a, rep) + [rep] + fb;
    }
  }

  /** ReplaceRunsSplit when a starts with another character. */
  lemma {:induction false} SplitAfterLetter(a: string, w: string, b: string, rep: char)
    requires w != [] && forall k :: 0 <= k < |w| ==> IsWhitespace(w[k])
    requires a != [] && !IsWhitespace(a[0]) && !IsWhitespace(a[|a| - 1])
    requires b == [] || !IsWhitespace(b[0])
    ensures ReplaceWhitespaceRuns(a + w + b, rep) ==
            ReplaceWhitespaceRuns(a, rep) + [rep] + ReplaceWhitespaceRuns(b, rep)
    decreases |a|, 0
  {
    var fb := ReplaceWhitespaceRuns(b, rep);
    var u := a[1..];
    assert u == [] || u[|u| - 1] == a[|a| - 1];
    ReplaceRunsSplit(u, w, b, rep);
    calc {
      ReplaceWhitespaceRuns(a + w + b, rep);
      { LetterFirst(a, w, b, rep); }
      [a[0]] + ReplaceWhitespaceRuns(u + w + b, rep);
      [a[0]] + (ReplaceWhitespaceRuns(u, rep) + [rep] + fb);
      { Regroup([a[0]], ReplaceWhitespaceRuns(u, rep), [rep], fb); }
      ([a[0]] + ReplaceWhitespaceRuns(u, rep)) + [rep] + fb;
      { LetterFirst(a, w, b, rep); }
      ReplaceWhitespaceRuns(a, rep) + [rep] + fb;
    }
  }

  /** The text starts with the run: it becomes rep and what follows the run. */
  lemma RunFirst(w: string, b: string, rep: char)
    requires w != [] && forall k :: 0 <= k < |w| ==> IsWhitespace(w[k])
    requires b == [] || !IsWhitespace(b[0])
    ensures ReplaceWhitespaceRuns(w + b, rep) == [rep] + ReplaceWhitespaceRuns(b, rep)
  {
    assert (w + b)[0] == w[0];
    assert (w + b)[1..] == w[1..] + b;
    TrimStartRun(w[1..], b);
  }

  lemma EmptyConcat(a: string, w: string, b: string)
    requires a == []
    ensures a + w + b == w + b
  {
  }

  lemma Assoc(a: string, w: string, b: string)
    ensures a + (w + b) == a + w + b
  {
  }

  lemma Regroup(x: string, y: string, z: string, v: string)
    ensures x + (y + z + v) == (x + y) + z + v
  {
  }

  /** A leading white-space character of a, unfolded once in a and in a + w + b. */
  lemma SpaceFirst(a: string, w: string, b: string, rep: char)
    requires a != [] && IsWhitespace(a[0])
    ensures ReplaceWhitespaceRuns(a + w + b, rep) == [rep] + ReplaceWhitespaceRuns(TrimStart(a[1..] + (w + b)), rep)
    ensures ReplaceWhitespaceRuns(a, rep) == [rep] + ReplaceWhitespaceRuns(TrimStart(a[1..]), rep)
  {
    var y := w + b;
    Assoc(a, w, b);
    assert (a + y)[0] == a[0];
    assert (a + y)[1..] == a[1..] + y;
  }

  /** A leading non-white-space character of a, unfolded once in a and in a + w + b. */
  lemma LetterFirst(a: string, w: string, b: string, rep: char)
    requires a != [] && !IsWhitespace(a[0])
    ensures ReplaceWhitespaceRuns(a + w + b, rep) == [a[0]] + ReplaceWhitespaceRuns(a[1..] + w + b, rep)
    ensures ReplaceWhitespaceRuns(a, rep) == [a[0]] + ReplaceWhitespaceRuns(a[1..], rep)
  {
    var y := w + b;
    Assoc(a, w, b);
    Assoc(a[1..], w, b);
    assert (a + y)[0] == a[0];
    assert (a + y)[1..] == a[1..] + y;
  }

  /** `s.replace(/a/g, b)` for a single character a. */
  function ReplaceChar(s: string, a: char, b: char): (r: string)
    ensures |r| == |s|
    ensures forall k :: 0 <= k < |s| ==> r[k] == if s[k] == a then b else s[k]
  {
    seq(|s|, k requires 0 <= k < |s| => if s[k] == a then b else s[k])
  }

  lemma ReplaceCharConcat(s: string, t: string, a: char, b: char)
    ensures ReplaceChar(s + t, a, b) == ReplaceChar(s, a, b) + ReplaceChar(t, a, b)
  {
    assert forall k :: 0 <= k < |s| + |t| ==> (s + t)[k] == if k < |s| then s[k] else t[k - |s|];
  }

  /** `s.replace(pat, "")` with a string pattern: the first occurrence of pat,
      if there is one, is removed. */
  function RemoveFirst(s: string, pat: string): (r: string)
    ensures pat <= s ==> r == s[|pat|..]
    ensures !Contains(s, pat) ==> r == s
    ensures |r| <= |s|
    decreases |s|
  {
    if pat <= s then
      assert pat <= s[0..];
      s[|pat|..]
    else if s == [] then s
    else
      assert !Contains(s, pat) ==> !Contains(s[1..], pat) by {
        if Contains(s[1..], pat) {
          var i :| 0 <= i <= |s[1..]| && pat <= s[1..][i..];
          assert s[1..][i..] == s[i + 1..];
        }
      }
      assert [s[0]] + s[1..] == s;
      [s[0]] + RemoveFirst(s[1..], pat)
  }
}
