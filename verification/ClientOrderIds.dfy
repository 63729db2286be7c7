/** Take-profit client order ids: printing, and reading the time back (src/engine/take_profit_reconciler.cpp:94-260). */
module ClientOrderIds {
  import opened Common

  const MAX_UINT64 := 0xFFFF_FFFF_FFFF_FFFF
  const MAX_INT64 := 0x7FFF_FFFF_FFFF_FFFF

  // ----- Base 36 -----

  function DigitChar(d: nat): (c: char)
    requires d < 36
  {
    if d < 10 then ('0' as int + d) as char else ('a' as int + (d - 10)) as char
  }

  predicate IsDigit(c: char) { '0' <= c <= '9' || 'a' <= c <= 'z' || 'A' <= c <= 'Z' }

  function DigitOf(c: char): (d: nat)
    requires IsDigit(c)
    ensures d < 36
  {
    if '0' <= c <= '9' then c as int - '0' as int
    else if 'a' <= c <= 'z' then 10 + c as int - 'a' as int
    else 10 + c as int - 'A' as int
  }

  predicate AllDigits(s: string) { forall c | c in s :: IsDigit(c) }

  // The number a digit string denotes.
  function Value(s: string): nat
    requires AllDigits(s)
  {
    if s == [] then 0 else 36 * Value(s[..|s| - 1]) + DigitOf(s[|s| - 1])
  }

  // The shortest lower-case digits of v.
  function Digits(v: nat): (s: string)
    ensures s != []
  {
    if v < 36 then [DigitChar(v)] else Digits(v / 36) + [DigitChar(v % 36)]
  }

  function Reversed(s: string): string {
    if s == [] then [] else [s[|s| - 1]] + Reversed(s[..|s| - 1])
  }

  function Pow36(n: nat): nat { if n == 0 then 1 else 36 * Pow36(n - 1) }

  // The digits still to come: none once the value is used up.
  function Leading(v: nat): string { if v > 0 then Digits(v) else [] }

  lemma LastDigit(v: nat)
    requires v > 0
    ensures Leading(v) == Leading(v / 36) + [DigitChar(v % 36)]
  {}

  lemma ReversedPush(out: string, c: char)
    ensures Reversed(out + [c]) == [c] + Reversed(out)
  {
    assert (out + [c])[..|out|] == out;
  }

  lemma NextDigit(rest: nat, out: string)
    requires rest > 0
    ensures Leading(rest / 36) + Reversed(out + [DigitChar(rest % 36)]) == Leading(rest) + Reversed(out)
  {
    LastDigit(rest);
    ReversedPush(out, DigitChar(rest % 36));
    Reassociate(Leading(rest / 36), DigitChar(rest % 36), Reversed(out));
  }

  lemma Reassociate(a: string, c: char, b: string)
    ensures a + ([c] + b) == (a + [c]) + b
  {}

  method ToBase36(value: nat) returns (s: string)
    requires value <= MAX_UINT64
    ensures s == Digits(value)
  {
    if value == 0 {
      return "0";
    }
    var out: string := [];
    var rest := value;
    while rest > 0
      invariant Digits(value) == Leading(rest) + Reversed(out)
    {
      NextDigit(rest, out);
      out, rest := out + [DigitChar(rest % 36)], rest / 36;
    }
    s := Reversed(out);
  }

  /** Reading succeeds exactly on a non-empty digit string whose number fits in 64 bits, whatever its length. */
  method FromBase36(s: string) returns (r: Option<nat>)
    ensures r.Some? <==> s != [] && AllDigits(s) && Value(s) <= MAX_UINT64
    ensures r.Some? ==> r.value == Value(s)
  {
    if s == [] {
      return None;
    }
    var out := 0;
    for k := 0 to |s|
      invariant AllDigits(s[..k]) && out == Value(s[..k]) && out <= MAX_UINT64
    {
      var c := s[k];
      var digit: nat;
      if '0' <= c <= '9' {
        digit := c as int - '0' as int;
      } else if 'a' <= c <= 'z' {
        digit := 10 + (c as int - 'a' as int);
      } else if 'A' <= c <= 'Z' {
        digit := 10 + (c as int - 'A' as int);
      } else {
        assert !IsDigit(c) && c in s;
        return None;
      }
      assert s[..k + 1][..k] == s[..k];
      if out > (MAX_UINT64 - digit) / 36 {
        PrefixValue(s, k + 1);
        return None;
      }
      out := out * 36 + digit;
    }
    assert s[..|s|] == s;
    return Some(out);
  }

  lemma {:induction false} PrefixValue(s: string, k: nat)
    requires k <= |s|
    ensures AllDigits(s) ==> Value(s[..k]) <= Value(s)
    decreases |s|
  {
    if k < |s| {
      PrefixValue(s[..|s| - 1], k);
      assert s[..|s| - 1][..k] == s[..k];
    } else {
      assert s[..k] == s;
    }
  }

  lemma DigitRoundTrip(d: nat)
    requires d < 36
    ensures IsDigit(DigitChar(d)) && DigitOf(DigitChar(d)) == d && !('A' <= DigitChar(d) <= 'Z')
  {}

  /** Reading what was printed gives the number back; nothing is printed in upper case. */
  lemma {:induction false} ValueOfDigits(v: nat)
    ensures AllDigits(Digits(v)) && Value(Digits(v)) == v
    ensures forall c | c in Digits(v) :: !('A' <= c <= 'Z')
  {
    if v < 36 {
      DigitRoundTrip(v);
      assert Digits(v)[..0] == [];
    } else {
      ValueOfDigits(v / 36);
      DigitRoundTrip(v % 36);
      assert Digits(v)[..|Digits(v)| - 1] == Digits(v / 36);
    }
  }

  /** v has at most n digits exactly when it is below 36 to the n. */
  lemma {:induction false} DigitCount(v: nat, n: nat)
    requires n >= 1
    ensures |Digits(v)| <= n <==> v < Pow36(n)
    decreases n
  {
    if n == 1 {
      assert Pow36(1) == 36 * Pow36(0);
    } else if v < 36 {
      PowPositive(n - 1);
    } else {
      DigitCount(v / 36, n - 1);
    }
  }

  lemma {:induction false} PowPositive(n: nat)
    ensures Pow36(n) >= 1
  {
    if n > 0 {
      PowPositive(n - 1);
    }
  }

  lemma PowerTable()
    ensures Pow36(2) == 1296 && Pow36(4) == 1679616 && Pow36(5) == 60466176
    ensures MAX_INT64 < Pow36(13)
  {
    assert Pow36(1) == 36;
    assert Pow36(4) == 1296 * Pow36(2);
    assert Pow36(6) == 1296 * Pow36(4);
    assert Pow36(8) == 1296 * Pow36(6);
    assert Pow36(10) == 1296 * Pow36(8);
    assert Pow36(12) == 1296 * Pow36(10);
    assert Pow36(13) == 36 * Pow36(12);
  }

  // ----- Zero-padded fields -----

  function Zeros(n: nat): (s: string)
    ensures |s| == n && forall c | c in s :: c == '0'
  {
    if n == 0 then [] else Zeros(n - 1) + ['0']
  }

  // The last `width` digits, padded with zeros on the left.
  function Padded(v: nat, width: nat): (s: string)
    ensures |s| == width
  {
    var s := Digits(v);
    if |s| < width then Zeros(width - |s|) + s else s[|s| - width..]
  }

  lemma {:induction false} LeadingZeros(n: nat, s: string)
    requires AllDigits(s)
    ensures AllDigits(Zeros(n) + s) && Value(Zeros(n) + s) == Value(s)
    decreases |s|, n
  {
    var z := Zeros(n) + s;
    if s != [] {
      LeadingZeros(n, s[..|s| - 1]);
      assert z[..|z| - 1] == Zeros(n) + s[..|s| - 1];
    } else if n > 0 {
      LeadingZeros(n - 1, s);
      assert z == Zeros(n) && Zeros(n - 1) + s == Zeros(n - 1);
      assert z[..|z| - 1] == Zeros(n - 1);
    }
  }

  /** A number that fits the field is read back from it. */
  lemma PaddedValue(v: nat, width: nat)
    requires width >= 1 && v < Pow36(width)
    ensures AllDigits(Padded(v, width)) && Value(Padded(v, width)) == v
  {
    var s := Digits(v);
    DigitCount(v, width);
    ValueOfDigits(v);
    if |s| < width {
      LeadingZeros(width - |s|, s);
    } else {
      assert s[|s| - width..] == s;
    }
  }

  // ----- The symbol part -----

  function Upper(c: char): char { if 'a' <= c <= 'z' then (c as int - 32) as char else c }

  predicate Accepted(c: char) { 'A' <= c <= 'Z' || '0' <= c <= '9' || c == '_' || c == '-' }

  // The upper-cased symbol without the characters an id may not hold.
  function Cleaned(symbol: string): string {
    if symbol == [] then []
    else
      var rest, c := Cleaned(symbol[..|symbol| - 1]), Upper(symbol[|symbol| - 1]);
      if Accepted(c) then rest + [c] else rest
  }

  const SYMBOL_WIDTH := 12

  function SymbolPart(symbol: string): string {
    var s := Cleaned(symbol);
    if |s| <= SYMBOL_WIDTH then s else s[..SYMBOL_WIDTH]
  }

  lemma {:induction false} CleanedPrefix(symbol: string, k: nat)
    requires k <= |symbol|
    ensures Cleaned(symbol[..k]) <= Cleaned(symbol)
    decreases |symbol|
  {
    if k < |symbol| {
      CleanedPrefix(symbol[..|symbol| - 1], k);
      assert symbol[..|symbol| - 1][..k] == symbol[..k];
    } else {
      assert symbol[..k] == symbol;
    }
  }

  /** Keeps the first twelve usable characters; `truncated` when the twelfth is not the symbol's last character. */
  method NormalizeSymbol(symbol: string) returns (value: string, truncated: bool)
    ensures value == SymbolPart(symbol)
    ensures truncated <==> symbol != [] && |Cleaned(symbol[..|symbol| - 1])| >= SYMBOL_WIDTH
  {
    value, truncated := [], false;
    for k := 0 to |symbol|
      invariant value == Cleaned(symbol[..k]) && |value| < SYMBOL_WIDTH && !truncated
    {
      assert symbol[..k + 1][..k] == symbol[..k];
      var c := symbol[k];
      var normalized := if 'a' <= c <= 'z' then ('A' as int + (c as int - 'a' as int)) as char else c;
      var accepted := 'A' <= normalized <= 'Z' || '0' <= normalized <= '9' || normalized == '_' || normalized == '-';
      if !accepted {
        continue;
      }
      value := value + [normalized];
      if |value| >= SYMBOL_WIDTH {
        truncated := k + 1 < |symbol|;
        CleanedPrefix(symbol, k + 1);
        if truncated {
          CleanedPrefix(symbol[..|symbol| - 1], k + 1);
          assert symbol[..|symbol| - 1][..k + 1] == symbol[..k + 1];
        } else {
          assert symbol[..|symbol| - 1] == symbol[..k];
        }
        return;
      }
    }
    assert symbol[..|symbol|] == symbol;
    if symbol != [] {
      CleanedPrefix(symbol, |symbol| - 1);
    }
  }

  // ----- Whole ids -----

  function Head(symbol: string, hash: nat): string {
    "gtp_" + SymbolPart(symbol) + "_" + Padded(hash % 1679616, 4)
  }

  function Id(symbol: string, hash: nat, nowMs: nat, sequence: nat): string {
    Head(symbol, hash) + "_" + Digits(nowMs) + "_" + Padded(sequence % 1296, 2)
  }

  // A field: padded when the digits are fewer, cut to the last ones when they are more.
  method PaddedBase36(value: nat, width: nat) returns (s: string)
    requires value <= MAX_UINT64
    ensures s == Padded(value, width)
  {
    s := ToBase36(value);
    if |s| < width {
      s := Zeros(width - |s|) + s;
    } else if |s| > width {
      s := s[|s| - width..];
    }
  }

  // hash: the symbol's 32-bit fingerprint; nowMs: the clock.
  method MakeId(symbol: string, hash: nat, nowMs: nat, sequence: nat) returns (r: Option<string>)
    requires hash < 0x1_0000_0000 && sequence < 0x1_0000_0000 && nowMs <= MAX_INT64
    ensures r == if Cleaned(symbol) == "" then None else Some(Id(symbol, hash, nowMs, sequence))
  {
    var value, truncated := NormalizeSymbol(symbol);
    if value == "" {
      return None;
    }
    var fingerprint := PaddedBase36(hash % 1679616, 4);
    var seq36 := PaddedBase36(sequence % 1296, 2);
    var ts := ToBase36(nowMs);
    return Some("gtp_" + value + "_" + fingerprint + "_" + ts + "_" + seq36);
  }

  // The id's last two fields are ts and tail.
  ghost predicate Splits(id: string, head: string, ts: string, tail: string) {
    id == head + "_" + ts + "_" + tail && '_' !in ts && '_' !in tail
  }

  ghost predicate Readable(id: string, ts: string) {
    "gtp_" <= id && 6 <= |ts| <= 13 && AllDigits(ts) && Value(ts) <= MAX_INT64
  }

  // The time an id carries.
  ghost predicate Carries(id: string, t: nat) {
    exists head, ts, tail :: Splits(id, head, ts, tail) && Readable(id, ts) && Value(ts) == t
  }

  // The last '_' before `end`, or -1.
  method LastSeparator(s: string, end: nat) returns (k: int)
    requires end <= |s|
    ensures -1 <= k < end
    ensures k >= 0 ==> s[k] == '_'
    ensures forall j | k < j < end :: s[j] != '_'
  {
    k := end - 1;
    while k >= 0 && s[k] != '_'
      invariant -1 <= k < end
      invariant forall j | k < j < end :: s[j] != '_'
    {
      k := k - 1;
    }
  }

  /** The parser finds the time exactly when the id carries one. */
  method OrderTimeMs(id: string) returns (r: Option<nat>)
    ensures r.Some? ==> Carries(id, r.value)
    ensures r.None? ==> forall t :: !Carries(id, t)
  {
    if !("gtp_" <= id) {
      return None;
    }
    var tailSep := LastSeparator(id, |id|);
    if tailSep <= 4 {
      forall head, ts, tail | Splits(id, head, ts, tail)
        ensures !Readable(id, ts)
      {
        SplitAt(id, head, ts, tail);
      }
      return None;
    }
    var tsSep := LastSeparator(id, tailSep);
    assert id[3] == '_';
    var ts, head, tail := id[tsSep + 1..tailSep], id[..tsSep], id[tailSep + 1..];
    assert id == head + "_" + ts + "_" + tail;
    assert Splits(id, head, ts, tail);
    forall h, x, y | Splits(id, h, x, y)
      ensures x == ts
    {
      SplitUnique(id, h, x, y, head, ts, tail);
    }
    if |ts| < 6 || |ts| > 13 {
      return None;
    }
    var decoded := FromBase36(ts);
    if decoded.None? || decoded.value > MAX_INT64 {
      return None;
    }
    assert Readable(id, ts);
    return decoded;
  }

  // Where the two separators of a split stand.
  lemma SplitAt(id: string, head: string, ts: string, tail: string)
    requires Splits(id, head, ts, tail)
    ensures |id| == |head| + |ts| + |tail| + 2
    ensures id[|head|] == '_' && id[|head| + 1 + |ts|] == '_'
    ensures forall j | |head| < j < |id| && j != |head| + 1 + |ts| :: id[j] != '_'
    ensures ts == id[|head| + 1..|head| + 1 + |ts|] && tail == id[|head| + |ts| + 2..] && head == id[..|head|]
  {
    forall j | |head| < j < |id| && j != |head| + 1 + |ts|
      ensures id[j] != '_'
    {
      if j < |head| + 1 + |ts| {
        assert id[j] == ts[j - |head| - 1];
      } else {
        assert id[j] == tail[j - |head| - |ts| - 2];
      }
    }
  }

  /** An id splits into its last two fields in one way only. */
  lemma SplitUnique(id: string, h1: string, ts1: string, t1: string, h2: string, ts2: string, t2: string)
    requires Splits(id, h1, ts1, t1) && Splits(id, h2, ts2, t2)
    ensures h1 == h2 && ts1 == ts2 && t1 == t2
  {
    SplitAt(id, h1, ts1, t1);
    SplitAt(id, h2, ts2, t2);
    assert |h1| + 1 + |ts1| == |h2| + 1 + |ts2|;
  }

  /** An id carries at most one time. */
  lemma CarriesOne(id: string, t: nat, u: nat)
    requires Carries(id, t) && Carries(id, u)
    ensures t == u
  {
    var h1, ts1, t1 :| Splits(id, h1, ts1, t1) && Readable(id, ts1) && Value(ts1) == t;
    var h2, ts2, t2 :| Splits(id, h2, ts2, t2) && Readable(id, ts2) && Value(ts2) == u;
    SplitUnique(id, h1, ts1, t1, h2, ts2, t2);
  }

  lemma NoSeparator(s: string)
    requires AllDigits(s)
    ensures '_' !in s
  {
    assert !IsDigit('_');
  }

  lemma IdSplits(symbol: string, hash: nat, nowMs: nat, sequence: nat)
    ensures Splits(Id(symbol, hash, nowMs, sequence), Head(symbol, hash), Digits(nowMs), Padded(sequence % 1296, 2))
    ensures "gtp_" <= Id(symbol, hash, nowMs, sequence)
  {
    PowerTable();
    ValueOfDigits(nowMs);
    PaddedValue(sequence % 1296, 2);
    NoSeparator(Digits(nowMs));
    NoSeparator(Padded(sequence % 1296, 2));
  }

  /** Printing then parsing returns the time exactly when the time has at least six base-36 digits, for every symbol,
      fingerprint and sequence number and every non-negative 64-bit time. */
  lemma PrintThenParse(symbol: string, hash: nat, nowMs: nat, sequence: nat, t: nat)
    requires nowMs <= MAX_INT64
    ensures Carries(Id(symbol, hash, nowMs, sequence), t) <==> t == nowMs && nowMs >= 60466176
  {
    var id := Id(symbol, hash, nowMs, sequence);
    IdSplits(symbol, hash, nowMs, sequence);
    PowerTable();
    ValueOfDigits(nowMs);
    DigitCount(nowMs, 5);
    DigitCount(nowMs, 13);
    if Carries(id, t) {
      var head, ts, tail :| Splits(id, head, ts, tail) && Readable(id, ts) && Value(ts) == t;
      SplitUnique(id, head, ts, tail, Head(symbol, hash), Digits(nowMs), Padded(sequence % 1296, 2));
    } else if t == nowMs && nowMs >= 60466176 {
      assert Splits(id, Head(symbol, hash), Digits(nowMs), Padded(sequence % 1296, 2)) && Readable(id, Digits(nowMs));
    }
  }

  /** Equal ids come from the same millisecond and the same sequence number modulo 1296. */
  lemma IdsDiffer(symbol1: string, hash1: nat, now1: nat, seq1: nat, symbol2: string, hash2: nat, now2: nat, seq2: nat)
    requires Id(symbol1, hash1, now1, seq1) == Id(symbol2, hash2, now2, seq2)
    ensures now1 == now2 && seq1 % 1296 == seq2 % 1296 && hash1 % 1679616 == hash2 % 1679616
    ensures SymbolPart(symbol1) == SymbolPart(symbol2)
  {
    IdSplits(symbol1, hash1, now1, seq1);
    IdSplits(symbol2, hash2, now2, seq2);
    SplitUnique(Id(symbol1, hash1, now1, seq1), Head(symbol1, hash1), Digits(now1), Padded(seq1 % 1296, 2),
                Head(symbol2, hash2), Digits(now2), Padded(seq2 % 1296, 2));
    ValueOfDigits(now1);
    ValueOfDigits(now2);
    PowerTable();
    PaddedValue(seq1 % 1296, 2);
    PaddedValue(seq2 % 1296, 2);
    PaddedValue(hash1 % 1679616, 4);
    PaddedValue(hash2 % 1679616, 4);
    HeadFields(symbol1, hash1);
    HeadFields(symbol2, hash2);
  }

  lemma HeadFields(symbol: string, hash: nat)
    ensures var h := Head(symbol, hash);
            |h| >= 9 && h[4..|h| - 5] == SymbolPart(symbol) && h[|h| - 4..] == Padded(hash % 1679616, 4)
  {}

  /** Every id fits the exchange's 36 characters below 36 to the 11; from there on a twelve-character symbol overflows. */
  lemma IdLength(symbol: string, hash: nat, nowMs: nat, sequence: nat)
    ensures nowMs < Pow36(11) ==> |Id(symbol, hash, nowMs, sequence)| <= 36
    ensures nowMs >= Pow36(11) && |Cleaned(symbol)| >= SYMBOL_WIDTH ==> |Id(symbol, hash, nowMs, sequence)| > 36
  {
    DigitCount(nowMs, 11);
  }
}
