/**
 * The Python string operations the bot relies on, over `string` (= seq<char>):
 * character classes, `str.lower`, `str.find`, `str.replace`, `str.split(sep)[0]`,
 * `re.sub(r"\s+", " ", s)`, `str.strip`, `str(int)` and `int(str)`.
 */
module Text {
  import opened Wrappers

  // ---------------------------------------------------------------- characters

  /** `\d` of a `re` pattern, restricted to ASCII digits. */
  predicate IsDigit(c: char) { '0' <= c <= '9' }

  /** `\w` of a `re` pattern, restricted to ASCII letters, digits and `_`. */
  predicate IsWordChar(c: char) { 'a' <= c <= 'z' || 'A' <= c <= 'Z' || IsDigit(c) || c == '_' }

  /** `str.isspace()` for one character, which is also what `\s` matches. */
  predicate IsSpace(c: char) {
    var n := c as int;
    (9 <= n <= 13) || (28 <= n <= 32) || n == 0x85 || n == 0xA0 || n == 0x1680
    || (0x2000 <= n <= 0x200A) || n == 0x2028 || n == 0x2029 || n == 0x202F
    || n == 0x205F || n == 0x3000
  }

  predicate IsUpper(c: char) { 'A' <= c <= 'Z' }

  function LowerChar(c: char): (d: char)
    ensures !IsUpper(d)
    ensures IsSpace(d) <==> IsSpace(c)
  {
    if IsUpper(c) then (c as int + 32) as char else c
  }

  /** `s.lower()` on the ASCII letters. */
  function Lower(s: string): (r: string)
    ensures |r| == |s|
  {
    if s == [] then [] else [LowerChar(s[0])] + Lower(s[1..])
  }

  /** No upper-case letter anywhere in `s`. */
  predicate IsLowered(s: string) {
    forall i :: 0 <= i < |s| ==> !IsUpper(s[i])
  }

  /** No two whitespace characters next to each other. */
  predicate NoSpaceRun(s: string) {
    forall i :: 0 <= i < |s| - 1 ==> !(IsSpace(s[i]) && IsSpace(s[i + 1]))
  }

  /** Neither the first nor the last character is whitespace. */
  predicate IsStripped(s: string) {
    s == [] || (!IsSpace(s[0]) && !IsSpace(s[|s| - 1]))
  }

  // ------------------------------------------------------------------ searching

  /** `lit` occurs in `s` at index `i`. */
  predicate StartsAt(s: string, i: nat, lit: string) {
    i + |lit| <= |s| && s[i..i + |lit|] == lit
  }

  predicate Contains(s: string, pat: string) {
    exists j: nat | j <= |s| :: StartsAt(s, j, pat)
  }

  /** `s.find(pat, i)`: the first occurrence of `pat` at or after `i`. */
  function FindFrom(s: string, pat: string, i: nat): (r: Option<nat>)
    decreases |s| - i
    ensures r.Some? ==> i <= r.value && StartsAt(s, r.value, pat)
    ensures r.Some? ==> forall j: nat :: i <= j < r.value ==> !StartsAt(s, j, pat)
    ensures r.None? ==> forall j: nat :: i <= j ==> !StartsAt(s, j, pat)
  {
    if i + |pat| > |s| then None
    else if StartsAt(s, i, pat) then Some(i)
    else FindFrom(s, pat, i + 1)
  }

  /** `s.replace(pat, "", 1)`: drop the first occurrence of `pat`, if any. */
  function RemoveFirst(s: string, pat: string): (r: string)
  {
    match FindFrom(s, pat, 0)
    case None => s
    case Some(k) => s[..k] + s[k + |pat|..]
  }

  /** `s.replace(pat, rep)`: every occurrence, left to right, without overlap. */
  function ReplaceAll(s: string, pat: string, rep: string): string
    requires |pat| > 0
    decreases |s|
  {
    if |s| < |pat| then s
    else if s[..|pat|] == pat then rep + ReplaceAll(s[|pat|..], pat, rep)
    else [s[0]] + ReplaceAll(s[1..], pat, rep)
  }

  /** `s.split(pat)[0]`: everything before the first occurrence of `pat`. */
  function CutAt(s: string, pat: string): (r: string)
    requires |pat| > 0
  {
    match FindFrom(s, pat, 0)
    case None => s
    case Some(k) => s[..k]
  }

  // ----------------------------------------------------------------- whitespace

  /** `s.lstrip()`. */
  function DropSpaces(s: string): (r: string)
    ensures |r| <= |s|
  {
    if s != [] && IsSpace(s[0]) then DropSpaces(s[1..]) else s
  }

  /** `s.rstrip()`. */
  function TrimEnd(s: string): (r: string)
    ensures |r| <= |s|
  {
    if s != [] && IsSpace(s[|s| - 1]) then TrimEnd(s[..|s| - 1]) else s
  }

  /** `lstrip` keeps a suffix of its input that does not start with whitespace. */
  lemma {:induction false} DropSpacesShape(s: string)
    ensures DropSpaces(s) == s[|s| - |DropSpaces(s)|..]
    ensures DropSpaces(s) == [] || !IsSpace(DropSpaces(s)[0])
    decreases |s|
  {
    if s != [] && IsSpace(s[0]) {
      DropSpacesShape(s[1..]);
    }
  }

  /** `rstrip` keeps a prefix of its input that does not end with whitespace. */
  lemma {:induction false} TrimEndShape(s: string)
    ensures TrimEnd(s) == s[..|TrimEnd(s)|]
    ensures TrimEnd(s) == [] || !IsSpace(TrimEnd(s)[|TrimEnd(s)| - 1])
    decreases |s|
  {
    if s != [] && IsSpace(s[|s| - 1]) {
      TrimEndShape(s[..|s| - 1]);
    }
  }

  /** `s.strip()`. */
  function Strip(s: string): string
  {
    TrimEnd(DropSpaces(s))
  }

  /** `re.sub(r"\s+", " ", s)`: each maximal run of whitespace becomes one space. */
  function CollapseSpaces(s: string): string
    decreases |s|
  {
    if s == [] then []
    else if IsSpace(s[0]) then " " + CollapseSpaces(DropSpaces(s[1..]))
    else [s[0]] + CollapseSpaces(s[1..])
  }

  // -------------------------------------------------------------------- numbers

  predicate AllDigits(s: string) {
    forall i :: 0 <= i < |s| ==> IsDigit(s[i])
  }

  function DigitValue(c: char): nat
    requires IsDigit(c)
  {
    c as int - '0' as int
  }

  function DigitChar(d: nat): (c: char)
    requires d < 10
    ensures IsDigit(c) && DigitValue(c) == d
  {
    ('0' as int + d) as char
  }

  /** The number a string of decimal digits denotes, most significant first. */
  function DigitsValue(ds: string): nat
    requires AllDigits(ds)
    decreases |ds|
  {
    if ds == [] then 0 else DigitsValue(ds[..|ds| - 1]) * 10 + DigitValue(ds[|ds| - 1])
  }

  /** `str(n)` for a non-negative integer. */
  function NatToDecimal(n: nat): (r: string)
    ensures |r| > 0 && AllDigits(r)
    decreases n
  {
    if n < 10 then [DigitChar(n)] else NatToDecimal(n / 10) + [DigitChar(n % 10)]
  }

  /** `str(n)`. */
  function IntToDecimal(n: int): string
  {
    if n < 0 then "-" + NatToDecimal(-n) else NatToDecimal(n)
  }

  /** `int(s)`: an optional sign followed by at least one ASCII digit; `None` is the ValueError. */
  function ParseInt(s: string): (r: Option<int>)
  {
    if s != [] && (s[0] == '-' || s[0] == '+') then
      if |s| > 1 && AllDigits(s[1..]) then
        var v: int := DigitsValue(s[1..]);
        Some(if s[0] == '-' then -v else v)
      else None
    else if s != [] && AllDigits(s) then Some(DigitsValue(s))
    else None
  }

  // --------------------------------------------------------------------- lemmas

  /** Reading back the decimal digits of `n` gives `n`. */
  lemma {:induction false} DigitsValueOfNatToDecimal(n: nat)
    ensures DigitsValue(NatToDecimal(n)) == n
    decreases n
  {
    if n >= 10 {
      var prefix := NatToDecimal(n / 10);
      var r := prefix + [DigitChar(n % 10)];
      assert r[..|r| - 1] == prefix;
      DigitsValueOfNatToDecimal(n / 10);
    }
  }

  /** `int(str(n)) == n` for every integer. */
  lemma ParseIntOfIntToDecimal(n: int)
    ensures ParseInt(IntToDecimal(n)) == Some(n)
  {
    if n < 0 {
      var s := IntToDecimal(n);
      assert s[1..] == NatToDecimal(-n);
      DigitsValueOfNatToDecimal(-n);
    } else {
      var s := NatToDecimal(n);
      DigitsValueOfNatToDecimal(n);
      assert s[0] != '-' && s[0] != '+' by { assert IsDigit(s[0]); }
    }
  }

  /** After `CollapseSpaces` no two whitespace characters are adjacent, the result is
      empty only for empty input, and it starts with the input's first character, or
      with a space where the input starts with whitespace. */
  lemma {:induction false} CollapseSpacesShape(s: string)
    ensures NoSpaceRun(CollapseSpaces(s))
    ensures s != [] ==> CollapseSpaces(s) != []
    ensures s != [] && !IsSpace(s[0]) ==> CollapseSpaces(s)[0] == s[0]
    ensures s != [] && IsSpace(s[0]) ==> CollapseSpaces(s)[0] == ' '
    decreases |s|
  {
    if s == [] {
    } else if IsSpace(s[0]) {
      var t := DropSpaces(s[1..]);
      DropSpacesShape(s[1..]);
      CollapseSpacesShape(t);
      var c := CollapseSpaces(t);
      assert CollapseSpaces(s) == " " + c;
      assert c != [] ==> !IsSpace(c[0]);
    } else {
      var t := s[1..];
      CollapseSpacesShape(t);
      var c := CollapseSpaces(t);
      assert CollapseSpaces(s) == [s[0]] + c;
    }
  }

  /** `CollapseSpaces` brings in no upper-case letter that was not already in the input. */
  lemma {:induction false} CollapseSpacesKeepsLowered(s: string)
    requires IsLowered(s)
    ensures IsLowered(CollapseSpaces(s))
    decreases |s|
  {
    if s == [] {
    } else if IsSpace(s[0]) {
      var t := DropSpaces(s[1..]);
      DropSpacesShape(s[1..]);
      assert IsLowered(t) by {
        forall i | 0 <= i < |t| ensures !IsUpper(t[i]) {
          assert t[i] == s[1..][|s[1..]| - |t| + i];
        }
      }
      CollapseSpacesKeepsLowered(t);
      assert CollapseSpaces(s) == " " + CollapseSpaces(t);
    } else {
      CollapseSpacesKeepsLowered(s[1..]);
      assert CollapseSpaces(s) == [s[0]] + CollapseSpaces(s[1..]);
    }
  }

  /** `s` has no whitespace character at all. */
  predicate NoSpace(s: string) {
    forall i :: 0 <= i < |s| ==> !IsSpace(s[i])
  }

  /** Every whitespace character is a plain space with no whitespace after it. */
  predicate SingleSpaced(s: string) {
    forall i :: 0 <= i < |s| && IsSpace(s[i]) ==> s[i] == ' ' && (i + 1 < |s| ==> !IsSpace(s[i + 1]))
  }

  lemma SingleSpacedConcat(a: string, b: string)
    requires SingleSpaced(a) && SingleSpaced(b)
    requires a == [] || b == [] || !IsSpace(a[|a| - 1]) || !IsSpace(b[0])
    ensures SingleSpaced(a + b)
  {
    var s := a + b;
    forall i | 0 <= i < |s| && IsSpace(s[i]) ensures s[i] == ' ' && (i + 1 < |s| ==> !IsSpace(s[i + 1])) {
      if i < |a| {
        assert s[i] == a[i];
        if i + 1 < |a| { assert s[i + 1] == a[i + 1]; } else if i + 1 < |s| { assert s[i + 1] == b[0]; }
      } else {
        assert s[i] == b[i - |a|];
        if i + 1 < |s| { assert s[i + 1] == b[i + 1 - |a|]; }
      }
    }
  }

  /** Collapsing whitespace leaves a single-spaced text that ends in a non-space untouched,
      whatever follows it. */
  lemma {:induction false} CollapseAfterWords(a: string, b: string)
    requires SingleSpaced(a) && (a == [] || !IsSpace(a[|a| - 1]))
    ensures CollapseSpaces(a + b) == a + CollapseSpaces(b)
    decreases |a|
  {
    if a == [] {
      assert a + b == b;
    } else {
      var s := a + b;
      assert s[0] == a[0];
      assert s[1..] == a[1..] + b;
      assert forall i :: 0 <= i < |a| - 1 ==> a[1..][i] == a[i + 1];
      assert a == [a[0]] + a[1..];
      if IsSpace(a[0]) {
        assert |a| >= 2 && !IsSpace(a[1]);
        assert s[1..][0] == a[1];
        assert DropSpaces(s[1..]) == s[1..];
        CollapseAfterWords(a[1..], b);
        assert CollapseSpaces(s) == " " + CollapseSpaces(a[1..] + b);
      } else {
        CollapseAfterWords(a[1..], b);
        assert CollapseSpaces(s) == [a[0]] + CollapseSpaces(a[1..] + b);
      }
    }
  }

  /** A run of two spaces before a word becomes one. */
  lemma CollapseDoubleSpace(w: string)
    requires w != [] && !IsSpace(w[0])
    ensures CollapseSpaces("  " + w) == " " + CollapseSpaces(w)
  {
    var s := "  " + w;
    assert s[1..] == " " + w && (" " + w)[1..] == w;
    assert DropSpaces(w) == w;
    assert DropSpaces(" " + w) == w;
    assert CollapseSpaces(s) == " " + CollapseSpaces(DropSpaces(s[1..]));
  }

  /** `lower` maps each character on its own. */
  lemma {:induction false} LowerAt(s: string)
    ensures forall i :: 0 <= i < |s| ==> Lower(s)[i] == LowerChar(s[i])
    decreases |s|
  {
    if s != [] {
      LowerAt(s[1..]);
      assert Lower(s) == [LowerChar(s[0])] + Lower(s[1..]);
    }
  }

  lemma {:induction false} LowerConcat(a: string, b: string)
    ensures Lower(a + b) == Lower(a) + Lower(b)
    decreases |a|
  {
    if a == [] {
      assert a + b == b;
    } else {
      var ab := a + b;
      assert ab[0] == a[0] && ab[1..] == a[1..] + b;
      LowerConcat(a[1..], b);
      calc {
        Lower(ab);
        [LowerChar(a[0])] + Lower(a[1..] + b);
        [LowerChar(a[0])] + (Lower(a[1..]) + Lower(b));
        ([LowerChar(a[0])] + Lower(a[1..])) + Lower(b);
        Lower(a) + Lower(b);
      }
    }
  }

  /** Lower-casing a word whose tail is already lower case changes only its head. */
  lemma LowerCapitalised(c: char, t: string)
    requires IsLowered(t)
    ensures Lower([c] + t) == [LowerChar(c)] + t
  {
    assert ([c] + t)[1..] == t;
    LowerOfLowered(t);
  }

  lemma LowerOfLowered(s: string)
    requires IsLowered(s)
    ensures Lower(s) == s
  {
    LowerAt(s);
  }

  /** Lower-casing changes letters only: it keeps whitespace, `#` and the stripped shape. */
  lemma LowerShape(s: string)
    ensures IsLowered(Lower(s))
    ensures SingleSpaced(s) ==> SingleSpaced(Lower(s))
    ensures IsStripped(s) ==> IsStripped(Lower(s))
    ensures '#' !in s ==> '#' !in Lower(s)
  {
    var l := Lower(s);
    LowerAt(s);
    assert forall i :: 0 <= i < |s| && IsSpace(s[i]) ==> l[i] == s[i];
    if '#' !in s {
      forall i | 0 <= i < |s| ensures l[i] != '#' {
        assert s[i] != '#';
      }
    }
  }

  /** `strip` of a stripped text, and of a stripped text followed by one space. */
  lemma StripOfStripped(t: string)
    requires IsStripped(t)
    ensures Strip(t) == t
    ensures Strip(t + " ") == t
  {
    assert DropSpaces(t) == t;
    var u := t + " ";
    if t == [] {
      assert u[1..] == [];
    } else {
      assert u[0] == t[0];
      assert DropSpaces(u) == u;
      assert u[..|u| - 1] == t;
    }
  }

  /** `strip` of a stripped text followed by one whitespace character, such as the
      newline that ends a command's output. */
  lemma StripTrailingSpace(t: string, c: char)
    requires IsStripped(t) && IsSpace(c)
    ensures Strip(t + [c]) == t
  {
    var u := t + [c];
    assert u[|u| - 1] == c && u[..|u| - 1] == t;
    if t == [] {
      assert u[1..] == [];
    } else {
      assert u[0] == t[0];
      assert DropSpaces(u) == u;
      assert TrimEnd(u) == TrimEnd(t);
    }
  }

  /** An occurrence of `pat` whose first character appears nowhere earlier is the one `find` returns. */
  lemma FindFirst(s: string, pat: string, k: nat)
    requires |pat| > 0 && StartsAt(s, k, pat) && pat[0] !in s[..k]
    ensures FindFrom(s, pat, 0) == Some(k)
  {
  }

  /** Dropping one occurrence of a pattern keeps a lower-cased text lower-cased. */
  lemma RemoveFirstKeepsLowered(s: string, pat: string)
    requires IsLowered(s)
    ensures IsLowered(RemoveFirst(s, pat))
  {
    match FindFrom(s, pat, 0)
    case None =>
    case Some(k) =>
      var r := s[..k] + s[k + |pat|..];
      forall i | 0 <= i < |r| ensures !IsUpper(r[i]) {
        if i < k { assert r[i] == s[i]; } else { assert r[i] == s[i + |pat|]; }
      }
  }

  /** One character that differs from `lit` rules out an occurrence of `lit` at `i`. */
  lemma NotStartsAtByChar(s: string, i: nat, lit: string, k: nat)
    requires k < |lit| && (i + k >= |s| || s[i + k] != lit[k])
    ensures !StartsAt(s, i, lit)
  {
  }

  /** An occurrence of `lit` is an occurrence of each of its prefixes. */
  lemma StartsAtPrefix(s: string, i: nat, lit: string, n: nat)
    requires n <= |lit|
    ensures StartsAt(s, i, lit) ==> StartsAt(s, i, lit[..n])
  {
    if StartsAt(s, i, lit) {
      assert s[i..i + n] == s[i..i + |lit|][..n];
    }
  }

  /** An occurrence of `lit` at `i` fixes the characters from `i` on. */
  lemma StartsAtChars(s: string, i: nat, lit: string)
    requires StartsAt(s, i, lit)
    ensures forall k :: 0 <= k < |lit| ==> s[i + k] == lit[k]
  {
    forall k | 0 <= k < |lit| ensures s[i + k] == lit[k] {
      assert s[i..i + |lit|][k] == s[i + k];
    }
  }

  /** A slice of a string keeps the no-adjacent-whitespace and lower-case properties. */
  lemma SliceKeepsShape(s: string, a: nat, b: nat)
    requires a <= b <= |s|
    ensures NoSpaceRun(s) ==> NoSpaceRun(s[a..b])
    ensures IsLowered(s) ==> IsLowered(s[a..b])
  {
    var t := s[a..b];
    assert forall i :: 0 <= i < |t| ==> t[i] == s[a + i];
  }

  /** `Strip` takes a slice of its input. */
  lemma StripIsSlice(s: string) returns (a: nat)
    ensures a + |Strip(s)| <= |s| && Strip(s) == s[a..a + |Strip(s)|]
  {
    var d := DropSpaces(s);
    var t := TrimEnd(d);
    DropSpacesShape(s);
    TrimEndShape(d);
    a := |s| - |d|;
    assert t == s[a..][..|t|];
    assert s[a..][..|t|] == s[a..a + |t|];
  }

  /** `Strip` leaves no whitespace at either end and takes a slice of its input,
      so the no-adjacent-whitespace and lower-case properties survive it. */
  lemma StripShape(s: string)
    ensures IsStripped(Strip(s))
    ensures NoSpaceRun(s) ==> NoSpaceRun(Strip(s))
    ensures IsLowered(s) ==> IsLowered(Strip(s))
  {
    var a := StripIsSlice(s);
    SliceKeepsShape(s, a, a + |Strip(s)|);
    var d := DropSpaces(s);
    var t := TrimEnd(d);
    DropSpacesShape(s);
    TrimEndShape(d);
    assert t != [] ==> t[0] == d[0];
  }

  /** `s.split(pat)[0]` never contains `pat`, so cutting a second time changes nothing. */
  lemma CutAtShape(s: string, pat: string)
    requires |pat| > 0
    ensures !Contains(CutAt(s, pat), pat)
    ensures CutAt(CutAt(s, pat), pat) == CutAt(s, pat)
    ensures CutAt(s, pat) == s[..|CutAt(s, pat)|]
    ensures Contains(s, pat) ==> StartsAt(s, |CutAt(s, pat)|, pat)
    ensures !Contains(s, pat) ==> CutAt(s, pat) == s
  {
    var r := CutAt(s, pat);
    match FindFrom(s, pat, 0)
    case None =>
    case Some(k) => assert k <= |s| && StartsAt(s, k, pat);
    forall j: nat | StartsAt(r, j, pat) ensures false {
      assert r[j..j + |pat|] == s[j..j + |pat|];
      assert StartsAt(s, j, pat);
    }
    var again := FindFrom(r, pat, 0);
    assert again.None?;
  }
}
