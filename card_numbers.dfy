/**
 The card-number engine (`CardNumberGenerator`, cards/services.py): a mod-10 check digit,
 the validity test built on it, and the construction of a new number from a network prefix,
 entropy digits and the check digit.

 The check digit is computed as the code has it: over the payload (the number without its
 check digit) the rightmost payload digit is taken as it is, the one left of it is doubled,
 and so on alternately. This is the doubling pattern of the standard Luhn *validation* applied
 to the payload, so it differs from the Luhn formula of ISO/IEC 7812-1, Annex B (which doubles
 the rightmost payload digit); `DiffersFromIsoLuhn` and `IsoDigitWithTrailingZero` make that
 precise. The numbers it produces are consistent with its own validity test.
 */
module CardNumbers {

  // ---------------------------------------------------------------------------------------
  // Decimal digits
  // ---------------------------------------------------------------------------------------

  /** An ASCII decimal digit. */
  predicate IsDigit(c: char)
  {
    '0' <= c <= '9'
  }

  predicate AllDigits(s: string)
  {
    forall i :: 0 <= i < |s| ==> IsDigit(s[i])
  }

  /** Python's `str.isdigit` on ASCII text: non-empty, and every character a digit. */
  predicate IsDigitString(s: string)
  {
    |s| > 0 && AllDigits(s)
  }

  /** `int(c)` for a single digit character. */
  function DigitValue(c: char): (d: nat)
    requires IsDigit(c)
    ensures d < 10
  {
    (c as int) - ('0' as int)
  }

  /** `str(d)` for a value below ten. */
  function DigitChar(d: nat): (c: char)
    requires d < 10
    ensures IsDigit(c) && DigitValue(c) == d
  {
    ((('0' as int) + d) as char)
  }

  /** The list `[int(d) for d in number]`. */
  function Digits(s: string): (ds: seq<nat>)
    requires AllDigits(s)
    ensures |ds| == |s|
  {
    seq(|s|, i requires 0 <= i < |s| => DigitValue(s[i]))
  }

  // ---------------------------------------------------------------------------------------
  // The check digit: the pieces the code uses
  // ---------------------------------------------------------------------------------------

  /** The slice `ds[-1::-2]`: the last element, then every second one going left. */
  function EveryOtherFromRight(ds: seq<nat>): seq<nat>
    decreases |ds|
  {
    if |ds| == 0 then []
    else if |ds| == 1 then [ds[0]]
    else [ds[|ds| - 1]] + EveryOtherFromRight(ds[..|ds| - 2])
  }

  /** `digits[-1::-2]`: the digits left undoubled. */
  function OddDigits(ds: seq<nat>): seq<nat>
  {
    EveryOtherFromRight(ds)
  }

  /** `digits[-2::-2]`: the digits that are doubled (empty for fewer than two digits). */
  function EvenDigits(ds: seq<nat>): seq<nat>
  {
    if |ds| == 0 then [] else EveryOtherFromRight(ds[..|ds| - 1])
  }

  /** `sum(divmod(d * 2, 10))`: the digit sum of a doubled digit. */
  function DoubledDigitSum(d: nat): nat
  {
    (d * 2) / 10 + (d * 2) % 10
  }

  /** Python's `sum`, accumulated from the left. */
  function Sum(xs: seq<nat>): nat
  {
    if |xs| == 0 then 0 else Sum(xs[..|xs| - 1]) + xs[|xs| - 1]
  }

  /** What the `for` loop adds to the total after `i` steps. */
  function DoubledSum(xs: seq<nat>): nat
  {
    if |xs| == 0 then 0 else DoubledSum(xs[..|xs| - 1]) + DoubledDigitSum(xs[|xs| - 1])
  }

  /** `(10 - (total % 10)) % 10`. */
  function CheckDigitOf(total: nat): (d: nat)
    ensures d < 10
    ensures (total + d) % 10 == 0
  {
    (10 - total % 10) % 10
  }

  // ---------------------------------------------------------------------------------------
  // The check digit: a positional reference definition
  // ---------------------------------------------------------------------------------------

  /** The contribution of one digit: itself, or the digit sum of its double. */
  function Weight(d: nat, doubled: bool): nat
  {
    if doubled then DoubledDigitSum(d) else d
  }

  /**
   The weighted digit sum read from the right: the rightmost digit is doubled exactly when
   `doubleLast` holds, and the doubling alternates going left.
   */
  function Total(ds: seq<nat>, doubleLast: bool): nat
    decreases |ds|
  {
    if |ds| == 0 then 0
    else Weight(ds[|ds| - 1], doubleLast) + Total(ds[..|ds| - 1], !doubleLast)
  }

  /** Whether position `k` of a sequence of length `n` is doubled in `Total(_, doubleLast)`. */
  function DoubledAt(n: nat, k: nat, doubleLast: bool): bool
    requires k < n
  {
    if (n - 1 - k) % 2 == 0 then doubleLast else !doubleLast
  }

  /** The check digit of the code: the rightmost payload digit is not doubled. */
  function LuhnCheckDigit(payload: string): (d: nat)
    requires AllDigits(payload)
    ensures d < 10
    ensures (Total(Digits(payload), false) + d) % 10 == 0
  {
    CheckDigitOf(Total(Digits(payload), false))
  }

  /** `calculate_luhn_checksum(number)` as a value: the check digit as a one-character string. */
  function LuhnChecksum(payload: string): (r: string)
    requires AllDigits(payload)
    ensures |r| == 1 && IsDigit(r[0])
  {
    [DigitChar(LuhnCheckDigit(payload))]
  }

  /**
   `calculate_luhn_checksum`: sum the undoubled digits, then add the digit sum of each doubled
   digit in a loop, and turn the total into the check digit.
   */
  method CalculateLuhnChecksum(number: string) returns (check: string)
    requires AllDigits(number)
    ensures check == LuhnChecksum(number)
  {
    var digits := Digits(number);
    var oddDigits := OddDigits(digits);
    var evenDigits := EvenDigits(digits);
    var total := Sum(oddDigits);
    var i := 0;
    while i < |evenDigits|
      invariant 0 <= i <= |evenDigits|
      invariant total == Sum(oddDigits) + DoubledSum(evenDigits[..i])
    {
      assert evenDigits[..i + 1][..i] == evenDigits[..i];
      total := total + ((evenDigits[i] * 2) / 10 + (evenDigits[i] * 2) % 10);
      i := i + 1;
    }
    assert evenDigits[..i] == evenDigits;
    SplitSumIsTotal(digits);
    check := [DigitChar((10 - total % 10) % 10)];
  }

  lemma {:induction false} SumPrepend(x: nat, xs: seq<nat>)
    ensures Sum([x] + xs) == x + Sum(xs)
    decreases |xs|
  {
    if |xs| > 0 {
      assert ([x] + xs)[..|xs|] == [x] + xs[..|xs| - 1];
      SumPrepend(x, xs[..|xs| - 1]);
    }
  }

  lemma {:induction false} DoubledSumPrepend(x: nat, xs: seq<nat>)
    ensures DoubledSum([x] + xs) == DoubledDigitSum(x) + DoubledSum(xs)
    decreases |xs|
  {
    if |xs| > 0 {
      assert ([x] + xs)[..|xs|] == [x] + xs[..|xs| - 1];
      DoubledSumPrepend(x, xs[..|xs| - 1]);
    }
  }

  /** The code's split into `digits[-1::-2]` and `digits[-2::-2]` computes the positional total. */
  lemma {:induction false} SplitSumIsTotal(ds: seq<nat>)
    ensures Sum(OddDigits(ds)) + DoubledSum(EvenDigits(ds)) == Total(ds, false)
    decreases |ds|
  {
    var n := |ds|;
    if n == 1 {
      assert ds[..0] == [];
    } else if n >= 2 {
      var rest := ds[..n - 2];
      assert ds[..n - 1][..n - 2] == rest;
      SumPrepend(ds[n - 1], EveryOtherFromRight(rest));
      if n == 2 {
        assert ds[..n - 1] == [ds[0]];
      } else {
        assert ds[..n - 1][..n - 3] == rest[..n - 3];
        DoubledSumPrepend(ds[n - 2], EveryOtherFromRight(rest[..n - 3]));
      }
      SplitSumIsTotal(rest);
    }
  }

  // ---------------------------------------------------------------------------------------
  // Validation
  // ---------------------------------------------------------------------------------------

  /** `is_valid_card_number`: all digits, and the last one is the check digit of the rest. */
  predicate IsValidCardNumber(cardNumber: string)
  {
    IsDigitString(cardNumber)
    && LuhnChecksum(cardNumber[..|cardNumber| - 1]) == cardNumber[|cardNumber| - 1..]
  }

  /** The empty payload has the empty digit list, total 0, and check digit '0'. */
  lemma EmptyPayloadChecksum()
    ensures LuhnChecksum("") == "0"
  {
  }

  /** Any non-digit character, and the empty string, make a number invalid. */
  lemma NonDigitIsInvalid(s: string)
    requires |s| == 0 || exists i :: 0 <= i < |s| && !IsDigit(s[i])
    ensures !IsValidCardNumber(s)
  {
  }

  /** Round trip: appending the check digit to any digit payload gives a valid number. */
  lemma ChecksumRoundTrip(payload: string)
    requires AllDigits(payload)
    ensures IsValidCardNumber(payload + LuhnChecksum(payload))
  {
    var n := payload + LuhnChecksum(payload);
    assert n[..|n| - 1] == payload;
    assert n[|n| - 1..] == LuhnChecksum(payload);
  }

  /** The check digit is the only digit that completes a payload to a valid number. */
  lemma CheckDigitIsUnique(payload: string, c: char)
    requires AllDigits(payload) && IsDigit(c)
    ensures IsValidCardNumber(payload + [c]) <==> [c] == LuhnChecksum(payload)
  {
    var n := payload + [c];
    assert n[..|n| - 1] == payload;
    assert n[|n| - 1..] == [c];
  }

  // ---------------------------------------------------------------------------------------
  // Single-digit errors are detected
  // ---------------------------------------------------------------------------------------

  /** Doubling with digit sum is `2d` below five and `2d - 9` from five on. */
  lemma DoubledDigitSumCases(d: nat)
    requires d < 10
    ensures DoubledDigitSum(d) == if d < 5 then 2 * d else 2 * d - 9
  {
    if d >= 5 {
      assert (d * 2) / 10 == 1;
    }
  }

  /** On a digit, each weight is a digit, and distinct digits get distinct weights. */
  lemma WeightIsInjective(x: nat, y: nat, doubled: bool)
    requires x < 10 && y < 10
    ensures Weight(x, doubled) < 10 && Weight(y, doubled) < 10
    ensures Weight(x, doubled) == Weight(y, doubled) ==> x == y
  {
    DoubledDigitSumCases(x);
    DoubledDigitSumCases(y);
  }

  /** Position `k` keeps its doubling when the last digit is dropped and the doubling flips. */
  lemma DoubledAtDropLast(n: nat, k: nat, doubleLast: bool)
    requires k < n - 1
    ensures DoubledAt(n - 1, k, !doubleLast) == DoubledAt(n, k, doubleLast)
  {
    var j := n - 2 - k;
    assert n - 1 - k == j + 1;
  }

  /** Replacing one digit changes the total by exactly the change of that digit's weight. */
  lemma {:induction false} TotalUpdate(ds: seq<nat>, k: nat, x: nat, doubleLast: bool)
    requires k < |ds|
    ensures var b := DoubledAt(|ds|, k, doubleLast);
      Total(ds[k := x], doubleLast) + Weight(ds[k], b) == Total(ds, doubleLast) + Weight(x, b)
    decreases |ds|
  {
    var n := |ds|;
    var es := ds[k := x];
    if k == n - 1 {
      assert es[..n - 1] == ds[..n - 1];
    } else {
      assert es[..n - 1] == ds[..n - 1][k := x];
      assert es[n - 1] == ds[n - 1];
      DoubledAtDropLast(n, k, doubleLast);
      TotalUpdate(ds[..n - 1], k, x, !doubleLast);
    }
  }

  lemma DigitsUpdate(s: string, k: nat, c: char)
    requires AllDigits(s) && k < |s| && IsDigit(c)
    ensures AllDigits(s[k := c])
    ensures Digits(s[k := c]) == Digits(s)[k := DigitValue(c)]
  {
  }

  /** Two totals that differ by a nonzero change of one digit weight have different check digits. */
  lemma CheckDigitsDiffer(t1: nat, t2: nat, w1: nat, w2: nat)
    requires w1 < 10 && w2 < 10 && w1 != w2
    requires t2 + w1 == t1 + w2
    ensures CheckDigitOf(t1) != CheckDigitOf(t2)
  {
    var r1, r2 := t1 % 10, t2 % 10;
    assert t1 == 10 * (t1 / 10) + r1 && t2 == 10 * (t2 / 10) + r2;
    assert r1 - r2 == (w1 - w2) - 10 * (t1 / 10 - t2 / 10);
    assert r1 != r2;
    assert CheckDigitOf(t1) == (if r1 == 0 then 0 else 10 - r1);
    assert CheckDigitOf(t2) == (if r2 == 0 then 0 else 10 - r2);
  }

  /** Changing one payload digit changes the checksum. */
  lemma PayloadChangeChangesChecksum(p: string, k: nat, c: char)
    requires AllDigits(p) && k < |p| && IsDigit(c) && c != p[k]
    ensures AllDigits(p[k := c]) && LuhnChecksum(p[k := c]) != LuhnChecksum(p)
  {
    var q := p[k := c];
    DigitsUpdate(p, k, c);
    var ds := Digits(p);
    var x := DigitValue(c);
    var b := DoubledAt(|ds|, k, false);
    TotalUpdate(ds, k, x, false);
    assert x != ds[k];
    WeightIsInjective(ds[k], x, b);
    CheckDigitsDiffer(Total(ds, false), Total(Digits(q), false), Weight(ds[k], b), Weight(x, b));
    assert LuhnChecksum(q)[0] != LuhnChecksum(p)[0];
  }

  /** Altering any single digit of a valid number makes it invalid. */
  lemma {:induction false} SingleDigitErrorDetected(n: string, k: nat, c: char)
    requires IsValidCardNumber(n)
    requires k < |n| && IsDigit(c) && c != n[k]
    ensures !IsValidCardNumber(n[k := c])
  {
    var m := n[k := c];
    var last := |n| - 1;
    var p := n[..last];
    var q := m[..last];
    if k == last {
      assert q == p;
      assert m[last..] == [c];
      assert n[last..] == [n[k]];
    } else {
      assert q == p[k := c];
      assert m[last..] == n[last..];
      PayloadChangeChangesChecksum(p, k, c);
    }
  }

  // ---------------------------------------------------------------------------------------
  // Generation
  // ---------------------------------------------------------------------------------------

  /** `BIN_RANGES`: the six-digit issuer prefix of each known card type. */
  const BinRanges: map<string, string> := map["VISA" := "400000", "MASTERCARD" := "510000", "AMEX" := "340000"]

  /** `BIN_RANGES.get(card_type, '400000')`. */
  function BinPrefix(cardType: string): (prefix: string)
    ensures |prefix| == 6 && AllDigits(prefix)
  {
    if cardType in BinRanges then BinRanges[cardType] else "400000"
  }

  /** An unknown card type gets the VISA prefix. */
  lemma UnknownTypeUsesVisaPrefix(cardType: string)
    requires cardType !in {"VISA", "MASTERCARD", "AMEX"}
    ensures BinPrefix(cardType) == BinPrefix("VISA")
  {
  }

  /** `15 if card_type == 'AMEX' else 16`. */
  function TotalLength(cardType: string): nat
  {
    if cardType == "AMEX" then 15 else 16
  }

  /** How many entropy digits the number needs: 8 for AMEX, 9 otherwise. */
  function AccountLength(cardType: string): (n: nat)
    ensures n == TotalLength(cardType) - 7
  {
    TotalLength(cardType) - |BinPrefix(cardType)| - 1
  }

  /** `''.join(c for c in hash_hex if c.isdigit())`: the decimal characters, in order. */
  function NumericHash(hashHex: string): (r: string)
    ensures AllDigits(r) && |r| <= |hashHex|
  {
    if |hashHex| == 0 then ""
    else (if IsDigit(hashHex[0]) then [hashHex[0]] else "") + NumericHash(hashHex[1..])
  }

  /** The filter works piecewise: filtering a concatenation concatenates the filtered parts. */
  lemma {:induction false} NumericHashAppend(a: string, b: string)
    ensures NumericHash(a + b) == NumericHash(a) + NumericHash(b)
    decreases |a|
  {
    if |a| > 0 {
      assert (a + b)[0] == a[0] && (a + b)[1..] == a[1..] + b;
      NumericHashAppend(a[1..], b);
    } else {
      assert a + b == b;
    }
  }

  /** Exactly the digits of the digest survive the filter. */
  lemma {:induction false} NumericHashMembers(hashHex: string, c: char)
    ensures c in NumericHash(hashHex) <==> c in hashHex && IsDigit(c)
    decreases |hashHex|
  {
    if |hashHex| > 0 {
      NumericHashMembers(hashHex[1..], c);
      assert hashHex == [hashHex[0]] + hashHex[1..];
    }
  }

  /** A string of digits passes the filter unchanged. */
  lemma {:induction false} NumericHashOfDigits(s: string)
    requires AllDigits(s)
    ensures NumericHash(s) == s
    decreases |s|
  {
    if |s| > 0 {
      NumericHashOfDigits(s[1..]);
    }
  }

  /** Python's `s[:n]`: the first `n` characters, or all of `s` if it is shorter. */
  function Take(s: string, n: nat): (r: string)
    ensures |r| == if n <= |s| then n else |s|
    ensures r <= s
  {
    if n <= |s| then s[..n] else s
  }

  /**
   `generate_unique_number(card_type)` with the SHA-256 hex digest of the timestamp and random
   seed passed in as `hashHex`: prefix, then as many entropy digits as fit, then the check digit.
   */
  function GenerateUniqueNumber(cardType: string, hashHex: string): (number: string)
    ensures IsValidCardNumber(number)
    ensures BinPrefix(cardType) <= number && |BinPrefix(cardType)| < |number| <= TotalLength(cardType)
    ensures |number| == TotalLength(cardType) <==> |NumericHash(hashHex)| >= AccountLength(cardType)
    ensures number[|BinPrefix(cardType)|..|number| - 1] <= NumericHash(hashHex)
    ensures |number| == |BinPrefix(cardType)| + 1 +
      (if |NumericHash(hashHex)| < AccountLength(cardType) then |NumericHash(hashHex)|
       else AccountLength(cardType))
  {
    var prefix := BinPrefix(cardType);
    var totalLength := TotalLength(cardType);
    var accountNumber := Take(NumericHash(hashHex), totalLength - |prefix| - 1);
    var partial := prefix + accountNumber;
    ChecksumRoundTrip(partial);
    assert (partial + LuhnChecksum(partial))[|prefix|..|partial|] == accountNumber;
    partial + LuhnChecksum(partial)
  }

  /** With no digit in the digest the number is the prefix and its check digit. */
  lemma NoEntropyDigits(cardType: string, hashHex: string)
    requires NumericHash(hashHex) == ""
    ensures GenerateUniqueNumber(cardType, hashHex) == BinPrefix(cardType) + LuhnChecksum(BinPrefix(cardType))
  {
    assert BinPrefix(cardType) + "" == BinPrefix(cardType);
  }

  /** With at least nine entropy digits, VISA and MASTERCARD numbers have 16 digits and AMEX numbers 15. */
  lemma FullLengthNumbers(hashHex: string)
    requires |NumericHash(hashHex)| >= 9
    ensures |GenerateUniqueNumber("VISA", hashHex)| == 16
    ensures |GenerateUniqueNumber("MASTERCARD", hashHex)| == 16
    ensures |GenerateUniqueNumber("AMEX", hashHex)| == 15
  {
  }

  // ---------------------------------------------------------------------------------------
  // Relation to the ISO/IEC 7812-1 check digit
  // ---------------------------------------------------------------------------------------

  /** The check digit of ISO/IEC 7812-1, Annex B: the rightmost payload digit is doubled. */
  function IsoCheckDigit(payload: string): (d: nat)
    requires AllDigits(payload)
    ensures d < 10
    ensures (Total(Digits(payload), true) + d) % 10 == 0
  {
    CheckDigitOf(Total(Digits(payload), true))
  }

  /** The code's digit is the standard digit of the payload with a '0' appended. */
  lemma IsoDigitWithTrailingZero(payload: string)
    requires AllDigits(payload)
    ensures LuhnCheckDigit(payload) == IsoCheckDigit(payload + "0")
  {
    var z := payload + "0";
    assert Digits(z)[..|payload|] == Digits(payload);
  }

  /** The classic test vector: the code yields 4 where the standard yields 3. */
  lemma DiffersFromIsoLuhn()
    ensures LuhnChecksum("7992739871") == "4"
    ensures IsoCheckDigit("7992739871") == 3
  {
    var ds := Digits("7992739871");
    assert ds == [7, 9, 9, 2, 7, 3, 9, 8, 7, 1];
    assert Total(ds, false) == 56 by {
      TotalOfVector(ds);
    }
    assert Total(ds, true) == 67 by {
      TotalOfVector(ds);
    }
  }

  /** Extending a prefix by the digit `d`: `d` is undoubled or doubled, and the rest flips. */
  lemma TotalOfLongerPrefix(ds: seq<nat>, m: nat, d: nat, f: nat, t: nat)
    requires m < |ds| && ds[m] == d
    requires Total(ds[..m], false) == f && Total(ds[..m], true) == t
    ensures Total(ds[..m + 1], false) == d + t
    ensures Total(ds[..m + 1], true) == DoubledDigitSum(d) + f
  {
    assert ds[..m + 1][..m] == ds[..m];
  }

  /** The two totals of the first five digits of 7992739871. */
  lemma {:induction false} TotalOfVectorFront(ds: seq<nat>)
    requires |ds| == 10
    requires ds[0] == 7 && ds[1] == 9 && ds[2] == 9 && ds[3] == 2 && ds[4] == 7
    ensures Total(ds[..5], false) == 36 && Total(ds[..5], true) == 30
  {
    assert Total(ds[..0], false) == 0 && Total(ds[..0], true) == 0;
    TotalOfLongerPrefix(ds, 0, 7, 0, 0);
    TotalOfLongerPrefix(ds, 1, 9, 7, 5);
    TotalOfLongerPrefix(ds, 2, 9, 14, 16);
    TotalOfLongerPrefix(ds, 3, 2, 25, 23);
    TotalOfLongerPrefix(ds, 4, 7, 25, 29);
  }

  /** The two totals of the digits 7992739871, one digit at a time from the left. */
  lemma {:induction false} TotalOfVector(ds: seq<nat>)
    requires |ds| == 10
    requires ds[0] == 7 && ds[1] == 9 && ds[2] == 9 && ds[3] == 2 && ds[4] == 7 && ds[5] == 3 && ds[6] == 9 && ds[7] == 8 && ds[8] == 7 && ds[9] == 1
    ensures Total(ds, false) == 56 && Total(ds, true) == 67
  {
    TotalOfVectorFront(ds);
    TotalOfLongerPrefix(ds, 5, 3, 36, 30);
    TotalOfLongerPrefix(ds, 6, 9, 33, 42);
    TotalOfLongerPrefix(ds, 7, 8, 51, 42);
    TotalOfLongerPrefix(ds, 8, 7, 50, 58);
    TotalOfLongerPrefix(ds, 9, 1, 65, 55);
    assert ds[..10] == ds;
  }


}
