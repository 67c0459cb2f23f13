/** The operations of Go's `strings` and `strconv` packages that the plugin uses.
    A Go string is a sequence of bytes; here each byte is the `char` with the same code. */
module Text {
  import opened Base

  predicate HasPrefix(s: string, prefix: string) {
    |prefix| <= |s| && s[..|prefix|] == prefix
  }

  predicate HasSuffix(s: string, suffix: string) {
    |suffix| <= |s| && s[|s| - |suffix|..] == suffix
  }

  /** `strings.TrimPrefix`: drops `prefix` once when `s` starts with it. */
  function TrimPrefix(s: string, prefix: string): (r: string)
    ensures HasPrefix(s, prefix) ==> prefix + r == s
    ensures !HasPrefix(s, prefix) ==> r == s
  {
    if HasPrefix(s, prefix) then
      assert s == s[..|prefix|] + s[|prefix|..];
      s[|prefix|..]
    else s
  }

  /** `strings.TrimSuffix`: drops `suffix` once when `s` ends with it. */
  function TrimSuffix(s: string, suffix: string): (r: string)
    ensures HasSuffix(s, suffix) ==> r + suffix == s
    ensures !HasSuffix(s, suffix) ==> r == s
  {
    if HasSuffix(s, suffix) then
      assert s == s[..|s| - |suffix|] + s[|s| - |suffix|..];
      s[..|s| - |suffix|]
    else s
  }

  predicate IsUpper(c: char) {
    'A' <= c <= 'Z'
  }

  /** Case folding of one byte: only the ASCII letters A-Z change. */
  function Lower(c: char): (d: char)
    ensures !IsUpper(d)
  {
    if IsUpper(c) then (c as int + 32) as char else c
  }

  /** `strings.ToLower` restricted to ASCII. */
  function ToLower(s: string): (r: string)
    ensures |r| == |s|
    ensures forall i :: 0 <= i < |s| ==> r[i] == Lower(s[i])
  {
    seq(|s|, i requires 0 <= i < |s| => Lower(s[i]))
  }

  predicate Lowercase(s: string) {
    forall i :: 0 <= i < |s| ==> !IsUpper(s[i])
  }

  /** Lowering changes exactly the strings that hold an upper-case letter. */
  lemma LowerIdentity(s: string)
    ensures ToLower(s) == s <==> Lowercase(s)
  {
    if Lowercase(s) {
      assert forall i :: 0 <= i < |s| ==> ToLower(s)[i] == s[i];
    } else {
      var i :| 0 <= i < |s| && IsUpper(s[i]);
      assert ToLower(s)[i] != s[i];
    }
  }

  predicate AllDots(s: string) {
    forall i :: 0 <= i < |s| ==> s[i] == '.'
  }

  predicate NoEdgeDots(s: string) {
    s == [] || (s[0] != '.' && s[|s| - 1] != '.')
  }

  function TrimLeadingDots(s: string): (r: string)
    ensures |r| <= |s| && s[|s| - |r|..] == r && AllDots(s[..|s| - |r|])
    ensures r == [] || r[0] != '.'
  {
    if s != [] && s[0] == '.' then TrimLeadingDots(s[1..]) else s
  }

  function TrimTrailingDots(s: string): (r: string)
    ensures |r| <= |s| && s[..|r|] == r && AllDots(s[|r|..])
    ensures r == [] || r[|r| - 1] != '.'
  {
    if s != [] && s[|s| - 1] == '.' then TrimTrailingDots(s[..|s| - 1]) else s
  }

  /** `strings.Trim(s, ".")`: removes every leading and every trailing dot and
      keeps what lies between unchanged. */
  function TrimDots(s: string): (r: string)
    ensures NoEdgeDots(r)
    ensures exists i :: 0 <= i <= |s| - |r| && AllDots(s[..i]) && s[i..i + |r|] == r && AllDots(s[i + |r|..])
  {
    var t := TrimLeadingDots(s);
    var i := |s| - |t|;
    assert t == s[i..];
    var r := TrimTrailingDots(t);
    assert s[i..i + |r|] == t[..|r|];
    assert s[i + |r|..] == t[|r|..];
    assert 0 <= i <= |s| - |r| && AllDots(s[..i]) && s[i..i + |r|] == r && AllDots(s[i + |r|..]);
    r
  }

  /** `strings.ReplaceAll(s, from, to)` for one-character strings. */
  function ReplaceAll(s: string, from: char, to: char): (r: string)
    ensures |r| == |s|
    ensures forall i :: 0 <= i < |s| ==> r[i] == (if s[i] == from then to else s[i])
  {
    seq(|s|, i requires 0 <= i < |s| => if s[i] == from then to else s[i])
  }

  /** Joins `parts` with `sep` between neighbours. */
  function Join(parts: seq<string>, sep: char): string {
    if parts == [] then []
    else if |parts| == 1 then parts[0]
    else parts[0] + [sep] + Join(parts[1..], sep)
  }

  /** `strings.Split(s, sep)` for a one-character separator: the pieces between
      separators, empty pieces included, so there is always at least one. */
  function Split(s: string, sep: char): (r: seq<string>)
    ensures |r| >= 1
    ensures forall i :: 0 <= i < |r| ==> sep !in r[i]
  {
    if s == [] then [[]]
    else
      var rest := Split(s[1..], sep);
      if s[0] == sep then [[]] + rest
      else
        var r := [[s[0]] + rest[0]] + rest[1..];
        assert r[1..] == rest[1..];
        r
  }

  /** Joining the pieces with the separator gives the string back. */
  lemma {:induction false} JoinSplit(s: string, sep: char)
    ensures Join(Split(s, sep), sep) == s
  {
    if s != [] {
      JoinSplit(s[1..], sep);
      var rest := Split(s[1..], sep);
      assert s == [s[0]] + s[1..];
      if s[0] == sep {
        var parts := [[]] + rest;
        assert parts[1..] == rest;
        assert Join(parts, sep) == [] + [sep] + Join(rest, sep);
      } else {
        var r := [[s[0]] + rest[0]] + rest[1..];
        assert r[1..] == rest[1..];
        if |rest| == 1 {
          assert Join(r, sep) == r[0];
        } else {
          assert Join(rest, sep) == rest[0] + [sep] + Join(rest[1..], sep);
          assert Join(r, sep) == r[0] + [sep] + Join(rest[1..], sep);
        }
      }
    }
  }

  lemma {:induction false} SplitNoSeparator(s: string, sep: char)
    requires sep !in s
    ensures Split(s, sep) == [s]
  {
    if s != [] {
      SplitNoSeparator(s[1..], sep);
      assert [s[0]] + s[1..] == s;
    }
  }

  lemma {:induction false} SplitAfterPiece(piece: string, sep: char, rest: string)
    requires sep !in piece
    ensures Split(piece + [sep] + rest, sep) == [piece] + Split(rest, sep)
  {
    var s := piece + [sep] + rest;
    if piece == [] {
      assert s[1..] == rest;
    } else {
      assert s[1..] == piece[1..] + [sep] + rest;
      SplitAfterPiece(piece[1..], sep, rest);
      assert [piece[0]] + piece[1..] == piece;
    }
  }

  /** Splitting a join of separator-free pieces gives the pieces back. */
  lemma {:induction false} SplitJoin(parts: seq<string>, sep: char)
    requires |parts| >= 1
    requires forall i :: 0 <= i < |parts| ==> sep !in parts[i]
    ensures Split(Join(parts, sep), sep) == parts
  {
    if |parts| == 1 {
      SplitNoSeparator(parts[0], sep);
    } else {
      SplitJoin(parts[1..], sep);
      SplitAfterPiece(parts[0], sep, Join(parts[1..], sep));
      assert [parts[0]] + parts[1..] == parts;
    }
  }

  /** `string(bs)`: the bytes, each read as the character with that code. */
  function ToText(bs: seq<byte>): (s: string)
    ensures |s| == |bs|
    ensures forall i :: 0 <= i < |bs| ==> s[i] as int == bs[i]
  {
    seq(|bs|, i requires 0 <= i < |bs| => bs[i] as char)
  }

  predicate IsDigit(c: char) {
    '0' <= c <= '9'
  }

  predicate AllDigits(s: string) {
    forall i :: 0 <= i < |s| ==> IsDigit(s[i])
  }

  function DigitValue(c: char): nat
    requires IsDigit(c)
  {
    c as int - '0' as int
  }

  /** The number a string of decimal digits denotes (leading zeros allowed). */
  function DecimalValue(s: string): nat
    requires AllDigits(s)
  {
    if s == [] then 0 else 10 * DecimalValue(s[..|s| - 1]) + DigitValue(s[|s| - 1])
  }

  /** The shortest decimal spelling of `n`. */
  function FormatDecimal(n: nat): (r: string)
    ensures r != [] && AllDigits(r)
  {
    var d := ['0' + ((n % 10) as char)];
    if n < 10 then d else FormatDecimal(n / 10) + d
  }

  lemma {:induction false} DecimalOfFormat(n: nat)
    ensures DecimalValue(FormatDecimal(n)) == n
  {
    if n >= 10 {
      DecimalOfFormat(n / 10);
      var s := FormatDecimal(n);
      assert s[..|s| - 1] == FormatDecimal(n / 10);
    }
  }

  /** A number below 10^k has at most k digits. */
  lemma {:induction false} FormatDecimalLength(n: nat, k: nat)
    requires k >= 1 && n < Pow10(k)
    ensures |FormatDecimal(n)| <= k
  {
    if n >= 10 {
      FormatDecimalLength(n / 10, k - 1);
    }
  }

  function Pow10(k: nat): nat {
    if k == 0 then 1 else 10 * Pow10(k - 1)
  }
}
