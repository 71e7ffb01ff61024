/**
 * The JavaScript string built-ins the front-end relies on, on `seq<char>`:
 * `split` with a one-character separator and `pop` of its last part,
 * `startsWith`, `BigInt.prototype.toString()` (base 10), and the `a || b`
 * chains the hook uses to default empty strings.
 */
module JsString {

  import opened Wrappers

  /** `s.split(sep)` for a one-character separator: every separator starts a
      new part, so empty parts are kept and there is always at least one. */
  function Split(s: string, sep: char): (parts: seq<string>)
    ensures |parts| >= 1
    ensures forall i :: 0 <= i < |parts| ==> sep !in parts[i]
    decreases |s|
  {
    if s == [] then [""]
    else
      var init := Split(s[..|s| - 1], sep);
      var c := s[|s| - 1];
      if c == sep then init + [""]
      else init[..|init| - 1] + [init[|init| - 1] + [c]]
  }

  /** `parts.join(sep)`. */
  function Join(parts: seq<string>, sep: char): string
    requires |parts| >= 1
  {
    if |parts| == 1 then parts[0]
    else Join(parts[..|parts| - 1], sep) + [sep] + parts[|parts| - 1]
  }

  /** The last element, as `Array.prototype.pop` returns it. */
  function Last(parts: seq<string>): string
    requires |parts| >= 1
  {
    parts[|parts| - 1]
  }

  /** All parts but the last. */
  function AllButLast(parts: seq<string>): seq<string>
    requires |parts| >= 1
  {
    parts[..|parts| - 1]
  }

  lemma JoinAppend(parts: seq<string>, x: string, sep: char)
    requires |parts| >= 1
    ensures Join(parts + [x], sep) == Join(parts, sep) + [sep] + x
  {
    assert (parts + [x])[..|parts|] == parts;
  }

  /** Joining the parts of a split gives the string back. */
  lemma {:induction false} JoinSplit(s: string, sep: char)
    ensures Join(Split(s, sep), sep) == s
    decreases |s|
  {
    if s != [] {
      var pre := s[..|s| - 1];
      var c := s[|s| - 1];
      var init := Split(pre, sep);
      JoinSplit(pre, sep);
      assert pre + [c] == s;
      if c == sep {
        JoinAppend(init, "", sep);
      } else {
        var n := |init|;
        var parts := init[..n - 1] + [init[n - 1] + [c]];
        if n == 1 {
          assert parts == [init[0] + [c]];
        } else {
          JoinAppend(init[..n - 1], init[n - 1] + [c], sep);
          JoinAppend(init[..n - 1], init[n - 1], sep);
          assert init[..n - 1] + [init[n - 1]] == init;
        }
      }
    }
  }

  /** A string without the separator is a single part. */
  lemma {:induction false} SplitPlain(b: string, sep: char)
    requires sep !in b
    ensures Split(b, sep) == [b]
    decreases |b|
  {
    if b != [] {
      SplitPlain(b[..|b| - 1], sep);
      assert b[..|b| - 1] + [b[|b| - 1]] == b;
    }
  }

  /** Appending a separator and a plain part adds exactly that part. */
  lemma {:induction false} SplitAppendPart(a: string, b: string, sep: char)
    requires sep !in b
    ensures Split(a + [sep] + b, sep) == Split(a, sep) + [b]
    decreases |b|
  {
    var s := a + [sep] + b;
    if b == [] {
      assert s[..|s| - 1] == a;
    } else {
      var b' := b[..|b| - 1];
      var c := b[|b| - 1];
      assert s[..|s| - 1] == a + [sep] + b';
      assert b' + [c] == b;
      SplitAppendPart(a, b', sep);
      var init := Split(a, sep) + [b'];
      assert init[..|init| - 1] == Split(a, sep);
    }
  }

  /** Splitting the join of separator-free parts gives the parts back. */
  lemma {:induction false} SplitJoin(parts: seq<string>, sep: char)
    requires |parts| >= 1
    requires forall i :: 0 <= i < |parts| ==> sep !in parts[i]
    ensures Split(Join(parts, sep), sep) == parts
    decreases |parts|
  {
    if |parts| == 1 {
      SplitPlain(parts[0], sep);
    } else {
      var init := parts[..|parts| - 1];
      SplitJoin(init, sep);
      SplitAppendPart(Join(init, sep), parts[|parts| - 1], sep);
      assert init + [parts[|parts| - 1]] == parts;
    }
  }

  /** `s.startsWith(prefix)`. */
  predicate StartsWith(s: string, prefix: string)
  {
    |prefix| <= |s| && s[..|prefix|] == prefix
  }

  /** The chain `c0 || c1 || ... || cn` over strings: the first non-empty
      candidate, or the last one when every candidate is empty. */
  function FirstNonEmpty(cands: seq<string>): (r: string)
    requires |cands| >= 1
    ensures exists i :: 0 <= i < |cands| && r == cands[i] && (r != "" || i == |cands| - 1)
                        && forall j :: 0 <= j < i ==> cands[j] == ""
    ensures r == "" <==> forall j :: 0 <= j < |cands| ==> cands[j] == ""
  {
    if |cands| == 1 || cands[0] != "" then cands[0]
    else
      var r := FirstNonEmpty(cands[1..]);
      ghost var i :| 0 <= i < |cands[1..]| && r == cands[1..][i] && (r != "" || i == |cands[1..]| - 1)
                     && forall j :: 0 <= j < i ==> cands[1..][j] == "";
      assert r == cands[i + 1];
      r
  }

  predicate IsDigit(c: char)
  {
    '0' <= c <= '9'
  }

  function DigitChar(d: nat): (c: char)
    requires d < 10
    ensures IsDigit(c) && c as int - '0' as int == d
  {
    "0123456789"[d]
  }

  /** The decimal digits of `n`, most significant first, with no leading zero. */
  function NatDigits(n: nat): (s: string)
    ensures |s| >= 1 && forall i :: 0 <= i < |s| ==> IsDigit(s[i])
    ensures s[0] == '0' ==> n == 0
    decreases n
  {
    if n < 10 then [DigitChar(n)] else NatDigits(n / 10) + [DigitChar(n % 10)]
  }

  /** `n.toString()` for a BigInt `n`: an optional minus sign and the digits. */
  function IntToString(n: int): string
  {
    if n < 0 then "-" + NatDigits(-n) else NatDigits(n)
  }

  /** The value of a string of decimal digits. */
  function ParseDigits(s: string): nat
    requires forall i :: 0 <= i < |s| ==> IsDigit(s[i])
    decreases |s|
  {
    if s == [] then 0
    else
      assert IsDigit(s[|s| - 1]);
      ParseDigits(s[..|s| - 1]) * 10 + (s[|s| - 1] as int - '0' as int)
  }

  /** Reads back an integer written by IntToString; None for anything else. */
  function ParseInt(s: string): Option<int>
  {
    if |s| >= 2 && s[0] == '-' && AllDigits(s[1..]) then
      var magnitude: int := ParseDigits(s[1..]);
      Some(-magnitude)
    else if |s| >= 1 && AllDigits(s) then
      Some(ParseDigits(s))
    else None
  }

  predicate AllDigits(s: string)
  {
    forall i :: 0 <= i < |s| ==> IsDigit(s[i])
  }

  lemma {:induction false} ParseNatDigits(n: nat)
    ensures ParseDigits(NatDigits(n)) == n
    decreases n
  {
    if n >= 10 {
      ParseNatDigits(n / 10);
      var s := NatDigits(n);
      assert s[..|s| - 1] == NatDigits(n / 10);
    }
  }

  /** The decimal text of a BigInt reads back as the same integer. */
  lemma IntToStringRoundTrip(n: int)
    ensures ParseInt(IntToString(n)) == Some(n)
  {
    var s := IntToString(n);
    if n < 0 {
      var d := NatDigits(-n);
      ParseNatDigits(-n);
      assert s == "-" + d && s[1..] == d;
      assert AllDigits(d);
    } else {
      ParseNatDigits(n);
      assert !IsDigit('-');
      assert AllDigits(s);
    }
  }
}
