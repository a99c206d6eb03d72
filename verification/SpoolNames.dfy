/** File names of the worker event spools: zero-padded decimal sequence numbers,
    their parsing, and the byte order in which a directory listing is replayed. */
module SpoolNames {
  import opened Prelude

  const MAX_UINT64: nat := 0xFFFF_FFFF_FFFF_FFFF
  const DIGITS: nat := 20

  predicate IsDigit(c: char) { '0' <= c <= '9' }

  predicate AllDigits(s: string) { forall i :: 0 <= i < |s| ==> IsDigit(s[i]) }

  function Pow10(w: nat): (p: nat)
    ensures p > 0
  {
    if w == 0 then 1 else 10 * Pow10(w - 1)
  }

  function DigitChar(d: nat): (c: char)
    requires d < 10
    ensures IsDigit(c)
  {
    '0' + d as char
  }

  function DigitValue(c: char): (d: nat)
    requires IsDigit(c)
    ensures d < 10
  {
    (c - '0') as nat
  }

  lemma DivideBelow(n: nat, p: nat)
    requires p > 0 && n < 10 * p
    ensures 0 <= n / p < 10 && 0 <= n % p < p && n == (n / p) * p + n % p
  {
  }

  /** `n` in exactly `w` decimal digits. */
  function Padded(n: nat, w: nat): (s: string)
    requires n < Pow10(w)
    ensures |s| == w && AllDigits(s)
  {
    if w == 0 then ""
    else
      DivideBelow(n, Pow10(w - 1));
      [DigitChar(n / Pow10(w - 1))] + Padded(n % Pow10(w - 1), w - 1)
  }

  lemma {:induction false} NextMultiple(x: nat, y: nat, p: nat)
    requires x < y
    ensures x * p + p <= y * p
  {
    if x + 1 < y {
      NextMultiple(x, y - 1, p);
    }
  }

  /** The number a digit string denotes. */
  function Value(s: string): (n: nat)
    requires AllDigits(s)
    ensures n < Pow10(|s|)
  {
    if s == "" then 0
    else
      var rest := Value(s[1..]);
      NextMultiple(DigitValue(s[0]), 10, Pow10(|s| - 1));
      DigitValue(s[0]) * Pow10(|s| - 1) + rest
  }

  lemma {:induction false} ValueOfPadded(n: nat, w: nat)
    requires n < Pow10(w)
    ensures Value(Padded(n, w)) == n
  {
    if w > 0 {
      var p := Pow10(w - 1);
      DivideBelow(n, p);
      ValueOfPadded(n % p, w - 1);
      assert Padded(n, w)[1..] == Padded(n % p, w - 1);
    }
  }

  lemma {:induction false} PaddedOfValue(s: string)
    requires AllDigits(s)
    ensures Padded(Value(s), |s|) == s
  {
    if s != "" {
      var p := Pow10(|s| - 1);
      PaddedOfValue(s[1..]);
      LeadingDigit(DigitValue(s[0]), DigitValue(s[0]) + 1, p, Value(s[1..]), 0);
      QuotientIs(DigitValue(s[0]), Value(s[1..]), p);
      assert s == [s[0]] + s[1..];
    }
  }

  lemma QuotientIs(q: nat, r: nat, p: nat)
    requires r < p
    ensures (q * p + r) / p == q && (q * p + r) % p == r
  {
    var n := q * p + r;
    var d, m := n / p, n % p;
    assert n == d * p + m;
    LeadingDigit(q, d, p, r, m);
    LeadingDigit(d, q, p, m, r);
  }

  /** Digits needed to write `n`, at least `atLeast`. */
  function Width(n: nat, atLeast: nat): (w: nat)
    ensures n < Pow10(w) && w >= atLeast
    ensures w == atLeast || n >= Pow10(w - 1)
    decreases n - Pow10(atLeast)
  {
    if n < Pow10(atLeast) then atLeast else Width(n, atLeast + 1)
  }

  /** `%020d` in Go, and `toString().padStart(20, "0")` in TypeScript. */
  function Format(n: nat): (s: string)
    ensures AllDigits(s)
  {
    Padded(n, Width(n, DIGITS))
  }

  lemma TenToTheTwenty()
    ensures Pow10(DIGITS) == 100_000_000_000_000_000_000
  {
    assert Pow10(5) == 100_000;
    assert Pow10(10) == 100_000 * Pow10(5);
    assert Pow10(15) == 100_000 * Pow10(10);
    assert Pow10(20) == 100_000 * Pow10(15);
  }

  /** Twenty characters suffice exactly for the numbers below 10^20, hence for every uint64. */
  lemma FormatWidth(n: nat)
    ensures |Format(n)| == DIGITS <==> n < 100_000_000_000_000_000_000
    ensures n <= MAX_UINT64 ==> |Format(n)| == DIGITS
  {
    TenToTheTwenty();
    if n >= Pow10(DIGITS) && Width(n, DIGITS) == DIGITS {
      assert false;
    }
  }

  /** Byte-wise string order: sort.Strings in Go, the default sort of ASCII strings in JavaScript. */
  predicate Less(a: string, b: string) {
    if b == "" then false
    else if a == "" then true
    else a[0] < b[0] || (a[0] == b[0] && Less(a[1..], b[1..]))
  }

  lemma {:induction false} LessTotal(a: string, b: string)
    ensures Less(a, b) || a == b || Less(b, a)
    ensures !(Less(a, b) && Less(b, a))
    ensures a == b ==> !Less(a, b)
  {
    if a != "" && b != "" {
      LessTotal(a[1..], b[1..]);
      assert a == [a[0]] + a[1..] && b == [b[0]] + b[1..];
    }
  }

  lemma {:induction false} LessTransitive(a: string, b: string, c: string)
    requires Less(a, b) && Less(b, c)
    ensures Less(a, c)
  {
    if a != "" && a[0] == b[0] == c[0] {
      LessTransitive(a[1..], b[1..], c[1..]);
    }
  }

  /** A leading digit decides before what follows it. */
  lemma LeadingDigit(x: nat, y: nat, p: nat, u: nat, v: nat)
    requires u < p && v < p
    ensures x * p + u < y * p + v <==> x < y || (x == y && u < v)
  {
    if x < y {
      NextMultiple(x, y, p);
    } else if y < x {
      NextMultiple(y, x, p);
    }
  }

  /** On digit strings of one length, byte order is numeric order. */
  lemma {:induction false} LessIsNumeric(a: string, b: string)
    requires |a| == |b| && AllDigits(a) && AllDigits(b)
    ensures Less(a, b) <==> Value(a) < Value(b)
  {
    if a != "" {
      var u, v := Value(a[1..]), Value(b[1..]);
      LessIsNumeric(a[1..], b[1..]);
      LeadingDigit(DigitValue(a[0]), DigitValue(b[0]), Pow10(|a| - 1), u, v);
      assert a[0] < b[0] <==> DigitValue(a[0]) < DigitValue(b[0]);
    }
  }

  /** A common prefix does not matter; a strictly smaller prefix of equal length decides. */
  lemma {:induction false} LessAfterPrefix(p: string, a: string, b: string)
    ensures Less(p + a, p + b) <==> Less(a, b)
  {
    if p == "" {
      assert p + a == a && p + b == b;
    } else {
      assert (p + a)[1..] == p[1..] + a && (p + b)[1..] == p[1..] + b;
      LessAfterPrefix(p[1..], a, b);
    }
  }

  lemma {:induction false} LessByPrefix(a: string, b: string, x: string, y: string)
    requires |a| == |b| && Less(a, b)
    ensures Less(a + x, b + y)
  {
    if a[0] == b[0] {
      assert (a + x)[1..] == a[1..] + x && (b + y)[1..] == b[1..] + y;
      LessByPrefix(a[1..], b[1..], x, y);
    }
  }

  // ---- event names -------------------------------------------------------

  const PREFIX: string := "evt_"
  const JSON: string := ".json"
  const TMP: string := ".tmp"

  function EventId(sequence: nat, suffix: string): string {
    PREFIX + Format(sequence) + "_" + suffix
  }

  function FileName(id: string): string { id + JSON }

  function TemporaryName(id: string): string { id + JSON + TMP }

  predicate HasSuffix(s: string, suffix: string) {
    |suffix| <= |s| && s[|s| - |suffix|..] == suffix
  }

  predicate IsSpooled(name: string) { HasSuffix(name, JSON) }

  lemma NameKinds(id: string)
    ensures IsSpooled(FileName(id)) && !IsSpooled(TemporaryName(id))
    ensures FileName(id) != TemporaryName(id)
    ensures FileName(id)[..|FileName(id)| - |JSON|] == id
  {
    var t := TemporaryName(id);
    assert t[|t| - 1] == 'p' && t[|t| - |JSON|..][|JSON| - 1] == t[|t| - 1];
    assert JSON[|JSON| - 1] == 'n';
  }

  lemma FileNameInjective(a: string, b: string)
    requires FileName(a) == FileName(b)
    ensures a == b
  {
    NameKinds(a);
    NameKinds(b);
  }

  /** strconv.ParseUint(s, 10, 64): digits only, and the value must fit 64 bits. */
  function ParseUint(s: string): Option<nat> {
    if s == "" || !AllDigits(s) || Value(s) > MAX_UINT64 then None else Some(Value(s))
  }

  /** What nextSequenceLocked reads out of one directory entry, if anything. */
  function SequenceOf(name: string): Option<nat> {
    if |name| < |PREFIX| + DIGITS || name[..|PREFIX|] != PREFIX then None
    else ParseUint(name[|PREFIX|..|PREFIX| + DIGITS])
  }

  lemma PrefixThenDigits(digits: string, tail: string)
    requires |digits| == DIGITS
    ensures var name := PREFIX + digits + tail;
            name[..|PREFIX|] == PREFIX && name[|PREFIX|..|PREFIX| + DIGITS] == digits
  {
  }

  /** Every sequence number that can be issued is read back from the name it was put in. */
  lemma SequenceRoundTrip(sequence: nat, tail: string)
    requires sequence <= MAX_UINT64
    ensures SequenceOf(PREFIX + Format(sequence) + tail) == Some(sequence)
  {
    FormatWidth(sequence);
    PrefixThenDigits(Format(sequence), tail);
    ValueOfPadded(sequence, Width(sequence, DIGITS));
  }

  lemma EventNameShape(sequence: nat, suffix: string)
    ensures FileName(EventId(sequence, suffix)) == PREFIX + Format(sequence) + ("_" + suffix + JSON)
    ensures TemporaryName(EventId(sequence, suffix)) == PREFIX + Format(sequence) + ("_" + suffix + JSON + TMP)
  {
  }

  lemma NameParts(name: string)
    requires |name| >= |PREFIX| + DIGITS && name[..|PREFIX|] == PREFIX
    ensures name == PREFIX + (name[|PREFIX|..|PREFIX| + DIGITS] + name[|PREFIX| + DIGITS..])
  {
  }

  /** A file whose readable sequence is smaller sorts before a newly issued one. */
  lemma SmallerSequenceSortsFirst(name: string, sequence: nat, suffix: string)
    requires SequenceOf(name).Some? && SequenceOf(name).value < sequence <= MAX_UINT64
    ensures Less(name, FileName(EventId(sequence, suffix)))
  {
    var digits := name[|PREFIX|..|PREFIX| + DIGITS];
    var rest := name[|PREFIX| + DIGITS..];
    NameParts(name);
    FormatWidth(sequence);
    ValueOfPadded(sequence, Width(sequence, DIGITS));
    LessIsNumeric(digits, Format(sequence));
    var tail := "_" + suffix + JSON;
    LessByPrefix(digits, Format(sequence), rest, tail);
    EventNameShape(sequence, suffix);
    assert FileName(EventId(sequence, suffix)) == PREFIX + (Format(sequence) + tail);
    LessAfterPrefix(PREFIX, digits + rest, Format(sequence) + tail);
  }

  /** A name has a number exactly if it starts with evt_ and twenty digits that write the number, which fits 64 bits. */
  lemma SequenceIff(name: string, n: nat)
    ensures SequenceOf(name) == Some(n) <==>
              n <= 0xFFFF_FFFF_FFFF_FFFF && exists tail :: name == "evt_" + Format(n) + tail
  {
    if SequenceOf(name) == Some(n) {
      var digits := name[4..24];
      PaddedOfValue(digits);
      FormatWidth(n);
      assert Format(n) == digits;
      assert name == "evt_" + Format(n) + name[24..];
    }
    if tail :| n <= MAX_UINT64 && name == "evt_" + Format(n) + tail {
      SequenceRoundTrip(n, tail);
    }
  }

  lemma {:induction false} LeadingZeros(k: nat, s: string)
    requires AllDigits(s)
    ensures var padded := seq(k, i => '0') + s; AllDigits(padded) && Value(padded) == Value(s)
  {
    var padded := seq(k, i => '0') + s;
    if k == 0 {
      assert padded == s;
    } else {
      LeadingZeros(k - 1, s);
      assert padded[1..] == seq(k - 1, i => '0') + s;
    }
  }

  lemma PaddedSpelled(digits: string, w: nat)
    requires AllDigits(digits) && |digits| <= w
    ensures Value(digits) < Pow10(w) && Padded(Value(digits), w) == seq(w - |digits|, i => '0') + digits
  {
    LeadingZeros(w - |digits|, digits);
    PaddedOfValue(seq(w - |digits|, i => '0') + digits);
  }

  lemma FormatIsPadded(n: nat, w: nat)
    requires n < Pow10(w) && w == DIGITS
    ensures Format(n) == Padded(n, w)
  {
  }

  /** What a file is called: the digits of its number, filled up with zeros to twenty. */
  lemma NameSpelled(digits: string, suffix: string)
    requires |digits| <= 20 && AllDigits(digits)
    ensures FileName(EventId(Value(digits), suffix)) == "evt_" + (seq(20 - |digits|, i => '0') + digits) + "_" + suffix + ".json"
  {
    var w := DIGITS;
    PaddedSpelled(digits, w);
    FormatIsPadded(Value(digits), w);
  }

  /** A digit string denotes a decimal number: one more digit at the end makes ten times the number, plus the digit. */
  lemma {:induction false} ValueIsDecimal(s: string, c: char)
    requires AllDigits(s) && '0' <= c <= '9'
    ensures AllDigits(s + [c]) && Value(s + [c]) == 10 * Value(s) + (c as int - 48)
  {
    if s == "" {
      assert s + [c] == [c];
      assert [c][1..] == "" && Pow10(0) == 1;
    } else {
      assert (s + [c])[1..] == s[1..] + [c];
      ValueIsDecimal(s[1..], c);
      TenTimes(DigitValue(s[0]), Pow10(|s| - 1));
    }
  }

  lemma TenTimes(d: nat, p: nat)
    ensures d * (10 * p) == 10 * (d * p)
  {
  }

  // ---- the next sequence number ------------------------------------------

  /** `n` is one more than the largest number `read` finds among the names (zero if none). */
  ghost predicate OneAboveMaximum(names: seq<string>, read: string -> Option<nat>, n: nat) {
    && (forall name :: name in names && read(name).Some? ==> read(name).value < n)
    && (n == 1 || exists name :: name in names && read(name) == Some(n - 1))
  }

  /** nextSequenceLocked: exhausted exactly when the largest uint64 is already in use. */
  method NextSequence(names: seq<string>) returns (next: Option<nat>)
    ensures next.None? <==> exists name :: name in names && SequenceOf(name) == Some(MAX_UINT64)
    ensures next.Some? ==> 1 <= next.value <= MAX_UINT64 && OneAboveMaximum(names, SequenceOf, next.value)
  {
    var maximum: nat := 0;
    for i := 0 to |names|
      invariant maximum <= MAX_UINT64
      invariant forall name :: name in names[..i] && SequenceOf(name).Some? ==> SequenceOf(name).value <= maximum
      invariant maximum == 0 || exists name :: name in names[..i] && SequenceOf(name) == Some(maximum)
    {
      assert names[..i + 1] == names[..i] + [names[i]];
      var value := SequenceOf(names[i]);
      if value.Some? && value.value > maximum {
        maximum := value.value;
      }
    }
    assert names[..|names|] == names;
    next := if maximum == MAX_UINT64 then None else Some(maximum + 1);
  }

  // ---- the TypeScript spool ----------------------------------------------

  predicate IsHex(s: string) {
    forall i :: 0 <= i < |s| ==> IsDigit(s[i]) || 'a' <= s[i] <= 'f'
  }

  const TS_LENGTH: nat := |PREFIX| + DIGITS + 1 + 24 + |JSON|

  /** The pattern evt_(\d{20})_[0-9a-f]{24}\.json. */
  predicate MatchesPattern(name: string) {
    && |name| == TS_LENGTH
    && name[..|PREFIX|] == PREFIX
    && AllDigits(name[|PREFIX|..|PREFIX| + DIGITS])
    && name[|PREFIX| + DIGITS] == '_'
    && IsHex(name[|PREFIX| + DIGITS + 1..|PREFIX| + DIGITS + 25])
    && name[|PREFIX| + DIGITS + 25..] == JSON
  }

  /** The pattern takes exactly the names of this shape. */
  lemma PatternIff(name: string)
    ensures MatchesPattern(name) <==>
              exists digits, suffix :: (|digits| == 20 && AllDigits(digits) && |suffix| == 24 && IsHex(suffix)
                                        && name == "evt_" + digits + "_" + suffix + ".json")
  {
    if MatchesPattern(name) {
      var digits, suffix := name[4..24], name[25..49];
      assert name == "evt_" + digits + "_" + suffix + ".json";
    }
    if digits, suffix :| (|digits| == 20 && AllDigits(digits) && |suffix| == 24 && IsHex(suffix)
                          && name == "evt_" + digits + "_" + suffix + ".json") {
      PrefixThenDigits(digits, "_" + suffix + ".json");
      assert name == PREFIX + digits + ("_" + suffix + ".json");
      assert name[25..49] == suffix && name[49..] == ".json";
    }
  }

  /** The captured group as an unbounded integer. */
  function CapturedSequence(name: string): Option<nat> {
    if MatchesPattern(name) then Some(Value(name[|PREFIX|..|PREFIX| + DIGITS])) else None
  }

  /** nextID's number: no upper limit is checked. */
  method NextBigSequence(names: seq<string>) returns (next: nat)
    ensures next >= 1 && OneAboveMaximum(names, CapturedSequence, next)
  {
    var maximum: nat := 0;
    for i := 0 to |names|
      invariant forall name :: name in names[..i] && CapturedSequence(name).Some? ==> CapturedSequence(name).value <= maximum
      invariant maximum == 0 || exists name :: name in names[..i] && CapturedSequence(name) == Some(maximum)
    {
      assert names[..i + 1] == names[..i] + [names[i]];
      var value := CapturedSequence(names[i]);
      if value.Some? && value.value > maximum {
        maximum := value.value;
      }
    }
    assert names[..|names|] == names;
    next := maximum + 1;
  }

  /** On a directory written by the TypeScript spool, the number it would issue next is also one
      above what the Go spool reads exactly while every number in use fits 64 bits. */
  lemma SpoolsAgree(names: seq<string>, n: nat)
    requires n >= 1 && OneAboveMaximum(names, CapturedSequence, n)
    requires forall name :: name in names ==> MatchesPattern(name)
    ensures OneAboveMaximum(names, SequenceOf, n) <==> n <= MAX_UINT64 + 1
  {
    forall name | name in names
      ensures SequenceOf(name) ==
              if CapturedSequence(name).value <= MAX_UINT64 then CapturedSequence(name) else None
    {
    }
  }

  /** The file the TypeScript spool creates is seen again by its own `pending`
      if and only if the sequence is below 10^20. */
  lemma BigSequenceVisible(sequence: nat, suffix: string)
    requires |suffix| == 24 && IsHex(suffix)
    ensures MatchesPattern(FileName(EventId(sequence, suffix))) <==> sequence < 100_000_000_000_000_000_000
  {
    var name := FileName(EventId(sequence, suffix));
    EventNameShape(sequence, suffix);
    FormatWidth(sequence);
    assert |name| == |PREFIX| + |Format(sequence)| + 1 + 24 + |JSON|;
    if sequence < 100_000_000_000_000_000_000 {
      PrefixThenDigits(Format(sequence), "_" + suffix + JSON);
      assert name[|PREFIX| + DIGITS + 1..|PREFIX| + DIGITS + 25] == suffix;
      assert name[|PREFIX| + DIGITS + 25..] == JSON;
    }
  }

  /** An issued number is read back from its name exactly while it has at most twenty digits. */
  lemma CaptureRoundTrip(sequence: nat, suffix: string)
    requires |suffix| == 24 && IsHex(suffix)
    ensures CapturedSequence(FileName(EventId(sequence, suffix)))
         == if sequence < 100_000_000_000_000_000_000 then Some(sequence) else None
  {
    BigSequenceVisible(sequence, suffix);
    if sequence < 100_000_000_000_000_000_000 {
      EventNameShape(sequence, suffix);
      FormatWidth(sequence);
      PrefixThenDigits(Format(sequence), "_" + suffix + JSON);
      ValueOfPadded(sequence, Width(sequence, DIGITS));
    }
  }

  /** A file whose captured number is smaller sorts before a newly issued one. */
  lemma SmallerCaptureSortsFirst(name: string, sequence: nat, suffix: string)
    requires CapturedSequence(name).Some? && CapturedSequence(name).value < sequence < 100_000_000_000_000_000_000
    ensures Less(name, FileName(EventId(sequence, suffix)))
  {
    var digits := name[|PREFIX|..|PREFIX| + DIGITS];
    var rest := name[|PREFIX| + DIGITS..];
    NameParts(name);
    FormatWidth(sequence);
    ValueOfPadded(sequence, Width(sequence, DIGITS));
    LessIsNumeric(digits, Format(sequence));
    var tail := "_" + suffix + JSON;
    LessByPrefix(digits, Format(sequence), rest, tail);
    EventNameShape(sequence, suffix);
    assert FileName(EventId(sequence, suffix)) == PREFIX + (Format(sequence) + tail);
    LessAfterPrefix(PREFIX, digits + rest, Format(sequence) + tail);
  }
}
