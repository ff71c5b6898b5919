/**
 * Character and string helpers shared by the SQL renderers, the meaning of the
 * generated SQL and the search-text parser.
 *
 * Case folding is restricted to ASCII: SQLite's built-in `LOWER` only folds
 * ASCII letters, and the query strings of the model are ASCII.
 */
module Text {

  /** Concatenation regrouped; stated once so that callers need not rediscover it. */
  lemma Assoc<T>(a: seq<T>, b: seq<T>, c: seq<T>)
    ensures a + (b + c) == a + b + c
  {
  }

  predicate IsUpper(c: char) { 'A' <= c <= 'Z' }

  predicate IsLower(c: char) { 'a' <= c <= 'z' }

  predicate IsDigit(c: char) { '0' <= c <= '9' }

  /** Rust's `char::is_alphanumeric`, restricted to ASCII. */
  predicate IsAlphanumeric(c: char) { IsUpper(c) || IsLower(c) || IsDigit(c) }

  /** The characters `sp` skips: space, tab, carriage return, line feed. */
  predicate IsSpace(c: char) { c == ' ' || c == '\t' || c == '\r' || c == '\n' }

  function LowerChar(c: char): (r: char)
    ensures !IsUpper(r)
    ensures IsUpper(c) || r == c
  {
    if IsUpper(c) then (c as int - 'A' as int + 'a' as int) as char else c
  }

  /** `to_lowercase` / SQLite `LOWER` on ASCII text. */
  function ToLower(s: string): string
  {
    seq(|s|, i requires 0 <= i < |s| => LowerChar(s[i]))
  }

  /** A string is its own lower-case form exactly when it holds no upper-case letter. */
  lemma LowerFixpointIff(s: string)
    ensures s == ToLower(s) <==> forall i :: 0 <= i < |s| ==> !IsUpper(s[i])
  {
    if s == ToLower(s) {
      forall i | 0 <= i < |s| ensures !IsUpper(s[i]) {
        assert s[i] == ToLower(s)[i] == LowerChar(s[i]);
      }
    }
  }

  /** Lower-casing twice is lower-casing once. */
  lemma ToLowerIdempotent(s: string)
    ensures ToLower(ToLower(s)) == ToLower(s)
  {
    LowerFixpointIff(ToLower(s));
  }

  /** SQLite `replace(s, from, to)` for one-character patterns, as in `replace(x, '_', ' ')`. */
  function ReplaceChar(s: string, from: char, to: char): string
  {
    seq(|s|, i requires 0 <= i < |s| => if s[i] == from then to else s[i])
  }

  predicate IsPrefix(p: string, s: string) { |p| <= |s| && s[..|p|] == p }

  /**
   * SQLite `replace(s, pat, rep)`: every non-overlapping occurrence of `pat`,
   * scanning left to right, is replaced by `rep`; an empty pattern leaves `s` as it is.
   */
  function ReplaceAll(s: string, pat: string, rep: string): string
    decreases |s|
  {
    if pat == [] || s == [] then s
    else if IsPrefix(pat, s) then rep + ReplaceAll(s[|pat|..], pat, rep)
    else [s[0]] + ReplaceAll(s[1..], pat, rep)
  }

  /**
   * Removing the occurrences of `pat` from `folder + pat`, when `pat` occurs
   * nowhere else in that string, gives back `folder`.
   */
  lemma {:induction false} ReplaceAllStripsSuffix(folder: string, pat: string)
    requires pat != []
    requires forall i :: 0 <= i < |folder| ==> !IsPrefix(pat, (folder + pat)[i..])
    ensures ReplaceAll(folder + pat, pat, "") == folder
  {
    var s := folder + pat;
    if folder == [] {
      assert s == pat;
      assert IsPrefix(pat, s);
      assert s[|pat|..] == [];
    } else {
      assert !IsPrefix(pat, s[0..]);
      assert s[0..] == s;
      var rest := folder[1..];
      assert s[1..] == rest + pat;
      forall i | 0 <= i < |rest| ensures !IsPrefix(pat, (rest + pat)[i..]) {
        assert (rest + pat)[i..] == s[i + 1..];
      }
      ReplaceAllStripsSuffix(rest, pat);
      assert ReplaceAll(s, pat, "") == [folder[0]] + rest;
    }
  }

  function DigitChar(d: nat): (c: char)
    requires d < 10
    ensures IsDigit(c)
  {
    ('0' as int + d) as char
  }

  function DigitValue(c: char): nat
    requires IsDigit(c)
  {
    c as int - '0' as int
  }

  /** The decimal text of a natural number, as `format!("{n}")` writes it. */
  function Decimal(n: nat): (s: string)
    ensures s != [] && forall i :: 0 <= i < |s| ==> IsDigit(s[i])
  {
    if n < 10 then [DigitChar(n)] else Decimal(n / 10) + [DigitChar(n % 10)]
  }

  predicate AllDigits(s: string) { forall i :: 0 <= i < |s| ==> IsDigit(s[i]) }

  /** The number a run of decimal digits denotes. */
  function DigitsValue(s: string): nat
    requires AllDigits(s)
  {
    if s == [] then 0 else DigitsValue(s[..|s| - 1]) * 10 + DigitValue(s[|s| - 1])
  }

  /** Reading back the decimal text of `n` gives `n`: distinct counters give distinct placeholders. */
  lemma {:induction false} DecimalRoundTrip(n: nat)
    ensures DigitsValue(Decimal(n)) == n
  {
    if n >= 10 {
      var s := Decimal(n / 10);
      var t := s + [DigitChar(n % 10)];
      assert t[..|t| - 1] == s;
      DecimalRoundTrip(n / 10);
    }
  }

  lemma DecimalInjective(m: nat, n: nat)
    ensures Decimal(m) == Decimal(n) ==> m == n
  {
    DecimalRoundTrip(m);
    DecimalRoundTrip(n);
  }
}
