/** The pieces of Rust's `str` behaviour that the TGF codec relies on:
    `trim`, `split`, `lines`, `splitn`, `usize::to_string` and `str::parse::<usize>`. */
module Text {
  import opened Wrappers
  import opened Seqs

  /** Rust's `char::is_whitespace` (the Unicode White_Space property). */
  predicate IsWhitespace(c: char)
  {
    || ('\t' <= c <= '\r') || c == ' ' || c == '\U{85}' || c == '\U{A0}' || c == '\U{1680}'
    || ('\U{2000}' <= c <= '\U{200A}') || c == '\U{2028}' || c == '\U{2029}'
    || c == '\U{202F}' || c == '\U{205F}' || c == '\U{3000}'
  }

  /** `str::trim_start`: drops the leading whitespace. */
  function TrimStart(s: string): (r: string)
    ensures |r| <= |s| && r == s[|s| - |r|..]
    ensures forall k :: 0 <= k < |s| - |r| ==> IsWhitespace(s[k])
    ensures r != [] ==> !IsWhitespace(r[0])
  {
    if s != [] && IsWhitespace(s[0]) then TrimStart(s[1..]) else s
  }

  /** `str::trim_end`: drops the trailing whitespace. */
  function TrimEnd(s: string): (r: string)
    ensures |r| <= |s| && r == s[..|r|]
    ensures forall k :: |r| <= k < |s| ==> IsWhitespace(s[k])
    ensures r != [] ==> !IsWhitespace(r[|r| - 1])
  {
    if s != [] && IsWhitespace(s[|s| - 1]) then TrimEnd(s[..|s| - 1]) else s
  }

  /** `str::trim`. */
  function Trim(s: string): string
  {
    TrimEnd(TrimStart(s))
  }

  /** A string that `trim` leaves as it is. */
  predicate Trimmed(s: string)
  {
    s == [] || (!IsWhitespace(s[0]) && !IsWhitespace(s[|s| - 1]))
  }

  /** Trimming removes exactly the whitespace at both ends: its result is trimmed,
      and a trimmed string is its own trim. */
  lemma TrimIsTrimmed(s: string)
    ensures Trimmed(Trim(s))
    ensures Trimmed(s) ==> Trim(s) == s
  {
    var a := TrimStart(s);
    var b := TrimEnd(a);
    if b != [] {
      assert b[0] == a[0];
    }
    if Trimmed(s) && s != [] {
      assert a == s;
    }
  }

  /** The pieces joined back with the separator. */
  function Join(pieces: seq<string>, c: char): string
  {
    if pieces == [] then []
    else if |pieces| == 1 then pieces[0]
    else pieces[0] + [c] + Join(pieces[1..], c)
  }

  /** `str::split(c)`: one more piece than there are separators, none containing it. */
  function Split(s: string, c: char): (r: seq<string>)
    ensures |r| == multiset(s)[c] + 1
    ensures forall k :: 0 <= k < |r| ==> c !in r[k]
    decreases |s|
  {
    var i := IndexOf(s, c);
    if i == |s| then [s]
    else
      assert s == s[..i] + [c] + s[i + 1..];
      [s[..i]] + Split(s[i + 1..], c)
  }

  lemma JoinCons(p: string, rest: seq<string>, c: char)
    requires rest != []
    ensures Join([p] + rest, c) == p + [c] + Join(rest, c)
  {
    assert ([p] + rest)[1..] == rest;
  }

  /** One step of `Split`: the text before the first separator, then the rest split. */
  lemma SplitUnfold(s: string, c: char)
    requires IndexOf(s, c) < |s|
    ensures Split(s, c) == [s[..IndexOf(s, c)]] + Split(s[IndexOf(s, c) + 1..], c)
  {
  }

  lemma SliceAround(s: string, i: nat)
    requires i < |s|
    ensures s == s[..i] + [s[i]] + s[i + 1..]
  {
  }

  /** Joining the pieces of a split gives back the text. */
  lemma {:induction false} JoinSplit(s: string, c: char)
    ensures Join(Split(s, c), c) == s
    decreases |s|
  {
    var i := IndexOf(s, c);
    if i < |s| {
      var rest := Split(s[i + 1..], c);
      SplitUnfold(s, c);
      JoinSplit(s[i + 1..], c);
      JoinCons(s[..i], rest, c);
      SliceAround(s, i);
    }
  }

  /** `str::splitn(n, c)` for `n >= 1`: at most `n` pieces, the last one holding the rest. */
  function SplitN(s: string, n: nat, c: char): (r: seq<string>)
    requires n >= 1
    ensures 1 <= |r| <= n
    ensures forall k :: 0 <= k < |r| - 1 ==> c !in r[k]
    ensures |r| < n ==> c !in r[|r| - 1]
    decreases n
  {
    var i := IndexOf(s, c);
    if n == 1 || i == |s| then [s]
    else [s[..i]] + SplitN(s[i + 1..], n - 1, c)
  }

  /** Joining the pieces of `splitn` gives back the text. */
  lemma {:induction false} JoinSplitN(s: string, n: nat, c: char)
    requires n >= 1
    ensures Join(SplitN(s, n, c), c) == s
    decreases n
  {
    var i := IndexOf(s, c);
    if n > 1 && i < |s| {
      var rest := SplitN(s[i + 1..], n - 1, c);
      JoinSplitN(s[i + 1..], n - 1, c);
      JoinCons(s[..i], rest, c);
      assert s == s[..i] + [c] + s[i + 1..];
    }
  }

  /** `str::lines`: split at `\n`, drop a `\r` just before it, no line after a final `\n`. */
  function Lines(s: string): (r: seq<string>)
    ensures forall k :: 0 <= k < |r| ==> '\n' !in r[k]
    ensures s == [] <==> r == []
    decreases |s|
  {
    if s == [] then []
    else
      var i := IndexOf(s, '\n');
      if i == |s| then [s]
      else [StripCarriageReturn(s[..i])] + Lines(s[i + 1..])
  }

  function StripCarriageReturn(line: string): (r: string)
    ensures r == line || (line == r + ['\r'])
  {
    if line != [] && line[|line| - 1] == '\r' then line[..|line| - 1] else line
  }

  /** Each line followed by `\n`, the way the serializer writes records. */
  function Unlines(ls: seq<string>): string
  {
    if ls == [] then [] else ls[0] + "\n" + Unlines(ls[1..])
  }

  /** A line that `lines` gives back unchanged once it is terminated by `\n`. */
  predicate PlainLine(l: string)
  {
    '\n' !in l && (l == [] || l[|l| - 1] != '\r')
  }

  /** `lines` takes off one terminated line at a time. */
  lemma LinesCons(l: string, rest: string)
    requires PlainLine(l)
    ensures Lines(l + "\n" + rest) == [l] + Lines(rest)
  {
    var s := l + "\n" + rest;
    IndexOfPastPrefix(l, '\n', rest);
    assert s[..|l|] == l && s[|l| + 1..] == rest;
  }

  /** `lines` inverts `Unlines` on plain lines. */
  lemma {:induction false} LinesUnlines(ls: seq<string>)
    requires forall k :: 0 <= k < |ls| ==> PlainLine(ls[k])
    ensures Lines(Unlines(ls)) == ls
  {
    if ls != [] {
      LinesCons(ls[0], Unlines(ls[1..]));
      LinesUnlines(ls[1..]);
    }
  }

  /** A separator-free prefix is the first piece of a split. */
  lemma SplitCons(a: string, c: char, b: string)
    requires c !in a
    ensures Split(a + [c] + b, c) == [a] + Split(b, c)
  {
    var s := a + [c] + b;
    IndexOfPastPrefix(a, c, b);
    assert s[..|a|] == a && s[|a| + 1..] == b;
  }

  predicate IsDigit(c: char)
  {
    '0' <= c <= '9'
  }

  function DigitChar(d: nat): (c: char)
    requires d < 10
    ensures IsDigit(c) && c as int == '0' as int + d
  {
    ['0', '1', '2', '3', '4', '5', '6', '7', '8', '9'][d]
  }

  /** `usize::to_string`: decimal digits without leading zeros. */
  function NatToString(n: nat): (r: string)
    ensures r != [] && forall k :: 0 <= k < |r| ==> IsDigit(r[k])
    ensures |r| > 1 ==> r[0] != '0'
  {
    if n < 10 then [DigitChar(n)] else NatToString(n / 10) + [DigitChar(n % 10)]
  }

  /** The value of a string of decimal digits, most significant first. */
  function DigitsValue(s: string): nat
    requires forall k :: 0 <= k < |s| ==> IsDigit(s[k])
  {
    if s == [] then 0
    else DigitsValue(s[..|s| - 1]) * 10 + DigitValue(s[|s| - 1])
  }

  function DigitValue(c: char): (d: nat)
    requires IsDigit(c)
    ensures d < 10 && DigitChar(d) == c
  {
    c as int - '0' as int
  }

  /** Decimal digits without a superfluous leading zero: the form `to_string` writes. */
  predicate CanonicalNumeral(s: string)
  {
    s != [] && (forall k :: 0 <= k < |s| ==> IsDigit(s[k])) && (|s| > 1 ==> s[0] != '0')
  }

  /** `str::parse::<usize>`: an optional `+` followed by at least one decimal digit.
      A numeral in the form `to_string` writes is read as the number it spells. */
  function ParseNat(s: string): (r: Option<nat>)
    ensures s == [] || s == "+" ==> r.None?
    ensures CanonicalNumeral(s) ==> r.Some? && NatToString(r.value) == s
    ensures (exists k :: 0 <= k < |s| && !IsDigit(s[k]) && (k > 0 || s[k] != '+')) ==> r.None?
  {
    var t := if s != [] && s[0] == '+' then s[1..] else s;
    if t != [] && forall k :: 0 <= k < |t| ==> IsDigit(t[k]) then
      if CanonicalNumeral(s) then ToStringDigitsValue(s); Some(DigitsValue(t))
      else Some(DigitsValue(t))
    else None
  }

  /** Parsing what `to_string` printed gives back the number. */
  lemma {:induction false} ParseNatToString(n: nat)
    ensures ParseNat(NatToString(n)) == Some(n)
  {
    DigitsValueToString(n);
  }

  lemma {:induction false} DigitsValueToString(n: nat)
    ensures DigitsValue(NatToString(n)) == n
  {
    var r := NatToString(n);
    if n >= 10 {
      DigitsValueToString(n / 10);
      assert r[..|r| - 1] == NatToString(n / 10);
    }
  }

  /** A character that is not a digit (other than a leading `+`) makes the parse fail. */
  lemma NonDigitRefused(s: string, k: nat)
    requires k < |s| && !IsDigit(s[k]) && (k > 0 || s[k] != '+')
    ensures ParseNat(s).None?
  {
  }

  /** Writing the value of a canonical numeral gives the numeral back. */
  lemma {:induction false} ToStringDigitsValue(s: string)
    requires CanonicalNumeral(s)
    ensures NatToString(DigitsValue(s)) == s
    decreases |s|
  {
    if |s| > 1 {
      var p := s[..|s| - 1];
      var d := DigitValue(s[|s| - 1]);
      assert CanonicalNumeral(p);
      ToStringDigitsValue(p);
      DigitsValuePositive(p);
      var v := DigitsValue(p) * 10 + d;
      assert DigitsValue(s) == v;
      LastDigit(DigitsValue(p), d);
      assert NatToString(v) == p + [DigitChar(d)];
      assert s == p + [s[|s| - 1]];
    }
  }

  lemma LastDigit(a: nat, d: nat)
    requires d < 10
    ensures (a * 10 + d) / 10 == a && (a * 10 + d) % 10 == d
  {
  }

  /** A numeral whose first digit is not zero has a positive value. */
  lemma {:induction false} DigitsValuePositive(s: string)
    requires s != [] && (forall k :: 0 <= k < |s| ==> IsDigit(s[k])) && s[0] != '0'
    ensures DigitsValue(s) > 0
    decreases |s|
  {
    if |s| > 1 {
      DigitsValuePositive(s[..|s| - 1]);
    }
  }
}
