/** Object keys of exported audit segments: zero-padded so that the listing order
    of the store is the order of the sequence numbers, and parsed back to find
    where the last run stopped. */
module ExportKeys {
  import opened Outcomes
  import opened Lexical

  const WIDTH := 12
  const JSON := ".json"
  const SIGNATURE_SUFFIX := ".sig.json"

  // ----- Decimal text -----------------------------------------------------------

  function Pow10(w: nat): (r: nat)
    ensures r > 0
  {
    if w == 0 then 1 else 10 * Pow10(w - 1)
  }

  function Digit(d: nat): (c: char)
    requires d < 10
    ensures '0' <= c <= '9'
  {
    '0' + d as char
  }

  /** The last `w` decimal digits of `n`. */
  function Fixed(w: nat, n: nat): (s: string)
    ensures |s| == w && AllDigits(s)
  {
    if w == 0 then "" else Fixed(w - 1, n / 10) + [Digit(n % 10)]
  }

  /** Plain decimal, as used once a number no longer fits the padding. */
  function Decimal(n: nat): string {
    if n < 10 then [Digit(n)] else Decimal(n / 10) + [Digit(n % 10)]
  }

  /** `f"{n:012d}"`. */
  function Padded(n: nat): string {
    if n < Pow10(WIDTH) then Fixed(WIDTH, n) else Decimal(n)
  }

  predicate AllDigits(s: string) {
    forall i :: 0 <= i < |s| ==> '0' <= s[i] <= '9'
  }

  /** `int(s)` for a string of digits. */
  function ParseDigits(s: string): nat
    requires AllDigits(s)
  {
    if s == "" then 0
    else
      var n := |s| - 1;
      10 * ParseDigits(s[..n]) + (s[n] - '0') as nat
  }

  lemma {:induction false} FixedParsesBack(w: nat, n: nat)
    requires n < Pow10(w)
    ensures ParseDigits(Fixed(w, n)) == n
  {
    if w > 0 {
      FixedParsesBack(w - 1, n / 10);
      assert Fixed(w, n)[..w - 1] == Fixed(w - 1, n / 10);
    }
  }

  /** At equal width, text order is number order. */
  lemma {:induction false} FixedKeepsOrder(w: nat, a: nat, b: nat)
    requires a < b < Pow10(w)
    ensures Less(Fixed(w, a), Fixed(w, b))
    decreases w
  {
    if a / 10 < b / 10 {
      FixedKeepsOrder(w - 1, a / 10, b / 10);
      HeadDecides(Fixed(w - 1, a / 10), [Digit(a % 10)], Fixed(w - 1, b / 10), [Digit(b % 10)]);
    } else {
      CommonPrefix(Fixed(w - 1, a / 10), [Digit(a % 10)], [Digit(b % 10)]);
    }
  }

  // ----- Keys ---------------------------------------------------------------------

  function Prefix(chain: string): string {
    "audit/" + chain + "/"
  }

  function RangeName(first: nat, last: nat): string {
    Padded(first) + "-" + Padded(last) + JSON
  }

  function Key(chain: string, first: nat, last: nat): string {
    Prefix(chain) + RangeName(first, last)
  }

  function SignatureKey(key: string): string {
    key + SIGNATURE_SUFFIX
  }

  predicate EndsWith(s: string, suffix: string) {
    |suffix| <= |s| && s[|s| - |suffix|..] == suffix
  }

  function RemoveSuffix(s: string, suffix: string): string {
    if EndsWith(s, suffix) then s[..|s| - |suffix|] else s
  }

  /** `s.rsplit("/", 1)[-1]`. */
  function AfterLastSlash(s: string): string {
    if s == "" || s[|s| - 1] == '/' then ""
    else AfterLastSlash(s[..|s| - 1]) + [s[|s| - 1]]
  }

  function BeforeDash(s: string): string {
    if s == "" || s[0] == '-' then "" else [s[0]] + BeforeDash(s[1..])
  }

  /** `s.split("-")[1]`, when there is a dash. */
  function SecondField(s: string): Option<string> {
    if s == "" then None
    else if s[0] == '-' then Some(BeforeDash(s[1..]))
    else SecondField(s[1..])
  }

  /** The last sequence number a segment key names. */
  function LastOfKey(key: string): Option<nat> {
    match SecondField(RemoveSuffix(AfterLastSlash(key), JSON))
    case Some(text) => if text != "" && AllDigits(text) then Some(ParseDigits(text)) else None
    case None => None
  }

  lemma {:induction false} AfterLastSlashOf(p: string, t: string)
    requires '/' !in t
    ensures AfterLastSlash(p + "/" + t) == t
  {
    var s := p + "/" + t;
    if t != "" {
      var n := |t| - 1;
      AfterLastSlashOf(p, t[..n]);
      assert s[|s| - 1] == t[n] && t[n] in t;
      assert s[..|s| - 1] == p + "/" + t[..n];
    }
  }

  lemma {:induction false} BeforeDashOf(t: string)
    requires '-' !in t
    ensures BeforeDash(t) == t
  {
    if t != "" {
      assert t[0] in t;
      BeforeDashOf(t[1..]);
    }
  }

  lemma {:induction false} SecondFieldOf(a: string, b: string)
    requires '-' !in a && '-' !in b
    ensures SecondField(a + "-" + b) == Some(b)
  {
    var s := a + "-" + b;
    if a == "" {
      assert s[1..] == b;
      BeforeDashOf(b);
    } else {
      assert s[0] == a[0] && a[0] in a;
      assert s[1..] == a[1..] + "-" + b;
      SecondFieldOf(a[1..], b);
    }
  }

  lemma {:induction false} DecimalDigits(n: nat)
    ensures AllDigits(Decimal(n)) && Decimal(n) != ""
  {
    if n >= 10 {
      DecimalDigits(n / 10);
    }
  }

  lemma PaddedDigits(n: nat)
    ensures AllDigits(Padded(n)) && Padded(n) != ""
  {
    DecimalDigits(n);
  }

  /** Resuming reads back exactly the high-water mark the key was built from. */
  lemma KeyParsesBack(chain: string, first: nat, last: nat)
    requires last < Pow10(WIDTH)
    ensures LastOfKey(Key(chain, first, last)) == Some(last)
  {
    PaddedDigits(first);
    PaddedDigits(last);
    var stem := Padded(first) + "-" + Padded(last);
    assert RangeName(first, last) == stem + JSON;
    assert Key(chain, first, last) == ("audit/" + chain) + "/" + RangeName(first, last);
    AfterLastSlashOf("audit/" + chain, RangeName(first, last));
    assert (stem + JSON)[|stem|..] == JSON;
    assert RemoveSuffix(stem + JSON, JSON) == stem;
    SecondFieldOf(Padded(first), Padded(last));
    FixedParsesBack(WIDTH, last);
  }

  lemma RangeNameParts(first: nat, last: nat)
    ensures RangeName(first, last) == Padded(first) + ("-" + Padded(last) + JSON)
  {
  }

  /** A segment key is never mistaken for a signature sidecar. */
  lemma SegmentKeyIsNoSidecar(chain: string, first: nat, last: nat)
    ensures !EndsWith(Key(chain, first, last), SIGNATURE_SUFFIX)
    ensures EndsWith(SignatureKey(Key(chain, first, last)), SIGNATURE_SUFFIX)
    ensures Prefix(chain) <= Key(chain, first, last)
  {
    PaddedDigits(last);
    var k := Key(chain, first, last);
    var digits := Padded(last);
    assert k == (Prefix(chain) + Padded(first) + "-" + digits) + JSON;
    assert k[|k| - 6] == digits[|digits| - 1] && digits[|digits| - 1] in digits;
    assert SIGNATURE_SUFFIX[3] == 'g';
    assert k[|k| - 9..][3] == k[|k| - 6];
    var g := SignatureKey(k);
    assert g[|g| - |SIGNATURE_SUFFIX|..] == SIGNATURE_SUFFIX;
  }

  // ----- Exactly when the order is kept ----------------------------------------------

  /** How many characters a number takes in a key. */
  function Width(n: nat): nat {
    |Padded(n)|
  }

  lemma {:induction false} DecimalIsFixed(n: nat)
    ensures var w := |Decimal(n)|; w > 0 && n < Pow10(w) && Decimal(n) == Fixed(w, n) && (n > 0 ==> n >= Pow10(w - 1))
  {
    if n < 10 {
      assert Pow10(1) == 10 && Fixed(0, n / 10) == "";
    } else {
      DecimalIsFixed(n / 10);
      var w := |Decimal(n / 10)|;
      assert Pow10(w + 1) == 10 * Pow10(w) && Pow10(w) == 10 * Pow10(w - 1);
    }
  }

  lemma PaddedIsFixed(n: nat)
    ensures Width(n) >= WIDTH && n < Pow10(Width(n)) && Padded(n) == Fixed(Width(n), n)
  {
    DecimalIsFixed(n);
    if n >= Pow10(WIDTH) && |Decimal(n)| < WIDTH {
      Pow10Grows(|Decimal(n)|, WIDTH);
    }
  }

  lemma {:induction false} Pow10Grows(a: nat, b: nat)
    requires a <= b
    ensures Pow10(a) <= Pow10(b)
  {
    if a < b { Pow10Grows(a, b - 1); }
  }

  lemma WidthGrows(a: nat, b: nat)
    requires a <= b
    ensures Width(a) <= Width(b)
  {
    DecimalIsFixed(a);
    DecimalIsFixed(b);
    PaddedIsFixed(b);
    if a >= Pow10(WIDTH) && |Decimal(a)| > |Decimal(b)| {
      Pow10Grows(|Decimal(b)|, |Decimal(a)| - 1);
    }
  }

  /** `n` without its last `k` decimal digits. */
  function DropDigits(n: nat, k: nat): nat {
    if k == 0 then n else DropDigits(n / 10, k - 1)
  }

  /** The digits of `n` are its leading digits followed by its last `k`. */
  lemma {:induction false} FixedSplits(w: nat, k: nat, n: nat)
    ensures Fixed(w + k, n) == Fixed(w, DropDigits(n, k)) + Fixed(k, n)
    decreases k
  {
    if k > 0 {
      FixedSplits(w, k - 1, n / 10);
      var lead, rest := Fixed(w, DropDigits(n, k)), Fixed(k - 1, n / 10);
      assert Fixed(w + k, n) == Fixed(w + k - 1, n / 10) + [Digit(n % 10)];
      assert lead + (rest + [Digit(n % 10)]) == lead + rest + [Digit(n % 10)];
    }
  }

  lemma {:induction false} LeadingFits(n: nat, w: nat, k: nat)
    requires n < Pow10(w + k)
    ensures DropDigits(n, k) < Pow10(w)
    decreases k
  {
    if k > 0 { LeadingFits(n / 10, w, k - 1); }
  }

  /** What `b` looks like cut to the width of `a`. */
  function Leading(b: nat, a: nat): nat {
    if Width(a) <= Width(b) then DropDigits(b, Width(b) - Width(a)) else b
  }

  lemma LessIsAsymmetric(a: string, b: string)
    requires Less(a, b)
    ensures !Less(b, a)
  {
    if Less(b, a) {
      Transitive(a, b, a);
      Irreflexive(a);
    }
  }

  lemma {:induction false} CommonPrefixDecides(p: string, a: string, b: string)
    ensures Less(p + a, p + b) == Less(a, b)
  {
    if p == "" {
      assert p + a == a && p + b == b;
    } else {
      assert (p + a)[1..] == p[1..] + a && (p + b)[1..] == p[1..] + b;
      CommonPrefixDecides(p[1..], a, b);
    }
  }

  /** Two range names that begin with equally wide numbers. */
  lemma NumbersDecide(w: nat, a: nat, x: string, lead: nat, y: string)
    requires a < Pow10(w) && lead < Pow10(w)
    ensures a < lead ==> Less(Fixed(w, a) + x, Fixed(w, lead) + y)
    ensures lead < a ==> !Less(Fixed(w, a) + x, Fixed(w, lead) + y)
    ensures a == lead ==> Less(Fixed(w, a) + x, Fixed(w, lead) + y) == Less(x, y)
  {
    hide Less;
    if a < lead {
      FixedKeepsOrder(w, a, lead);
      HeadDecides(Fixed(w, a), x, Fixed(w, lead), y);
    } else if lead < a {
      FixedKeepsOrder(w, lead, a);
      HeadDecides(Fixed(w, lead), y, Fixed(w, a), x);
      LessIsAsymmetric(Fixed(w, lead) + y, Fixed(w, a) + x);
    } else {
      CommonPrefixDecides(Fixed(w, a), x, y);
    }
  }

  /** A later number's name, split at the width of an earlier one. */
  lemma LaterName(a: nat, b: nat, bLast: nat) returns (y: string)
    requires a < b
    ensures RangeName(b, bLast) == Fixed(Width(a), Leading(b, a)) + y && Leading(b, a) < Pow10(Width(a))
    ensures Leading(b, a) == a ==> y != "" && '0' <= y[0] <= '9'
  {
    WidthGrows(a, b);
    var k := Width(b) - Width(a);
    PaddedSplits(b, Width(a), k);
    RangeNameParts(b, bLast);
    hide Padded, Fixed, Pow10, RangeName, Width;
    var tail := "-" + Padded(bLast) + JSON;
    y := Fixed(k, b) + tail;
    Regroup(RangeName(b, bLast), Padded(b), Fixed(Width(a), Leading(b, a)), Fixed(k, b), tail);
  }

  lemma Regroup(name: string, number: string, lead: string, rest: string, tail: string)
    requires name == number + tail && number == lead + rest
    ensures name == lead + (rest + tail) && (rest != "" ==> (rest + tail)[0] == rest[0])
  {
  }

  lemma PaddedSplits(b: nat, w: nat, k: nat)
    requires w + k == Width(b)
    ensures Padded(b) == Fixed(w, DropDigits(b, k)) + Fixed(k, b) && DropDigits(b, k) < Pow10(w)
  {
    PaddedIsFixed(b);
    FixedSplits(w, k, b);
    LeadingFits(b, w, k);
  }

  /** For any two segments, the earlier one is listed first if and only if its
      number is at most the leading digits of the later one's. */
  lemma KeyOrderExactly(chain: string, a: nat, aLast: nat, b: nat, bLast: nat)
    requires a < b
    ensures Less(Key(chain, a, aLast), Key(chain, b, bLast)) <==> a <= Leading(b, a)
  {
    hide Padded, Less, Leading, Pow10, Fixed;
    PaddedIsFixed(a);
    RangeNameParts(a, aLast);
    var x := "-" + Padded(aLast) + JSON;
    var y := LaterName(a, b, bLast);
    hide RangeName;
    CommonPrefixDecides(Prefix(chain), RangeName(a, aLast), RangeName(b, bLast));
    NumbersDecide(Width(a), a, x, Leading(b, a), y);
    if a == Leading(b, a) {
      DashComesFirst(x, y);
    }
  }

  lemma DashComesFirst(x: string, y: string)
    requires x != "" && x[0] == '-' && y != "" && '0' <= y[0]
    ensures Less(x, y)
  {
  }

  /** Below 10^12 the listing order of two segments is their sequence order. */
  lemma KeysSortNumerically(chain: string, a: nat, aLast: nat, b: nat, bLast: nat)
    requires a < b < Pow10(WIDTH)
    ensures Less(Key(chain, a, aLast), Key(chain, b, bLast))
  {
    KeyOrderExactly(chain, a, aLast, b, bLast);
    assert Leading(b, a) == DropDigits(b, 0);
  }

  /** From 10^12 on the padding no longer keeps the order: the segment holding
      event 10^12 is listed before the one holding event 10^12 - 1. */
  lemma OrderBreaksAtTenToTheTwelfth(chain: string)
    ensures Less(Key(chain, Pow10(WIDTH), Pow10(WIDTH)), Key(chain, Pow10(WIDTH) - 1, Pow10(WIDTH) - 1))
  {
    var n: nat := Pow10(WIDTH);
    DecimalStartsWithOne(WIDTH);
    NinesStartWithNine(WIDTH);
    var x, y := RangeName(n, n), RangeName(n - 1, n - 1);
    assert x[0] == '1' && y[0] == '9';
    CommonPrefix(Prefix(chain), x, y);
  }

  lemma {:induction false} DecimalStartsWithOne(w: nat)
    ensures Decimal(Pow10(w)) != "" && Decimal(Pow10(w))[0] == '1'
  {
    if w > 0 {
      DecimalStartsWithOne(w - 1);
      assert Pow10(w) / 10 == Pow10(w - 1);
    }
  }

  lemma {:induction false} NinesStartWithNine(w: nat)
    requires w > 0
    ensures Fixed(w, Pow10(w) - 1)[0] == '9'
  {
    if w > 1 {
      NinesStartWithNine(w - 1);
      assert (Pow10(w) - 1) / 10 == Pow10(w - 1) - 1;
    } else {
      assert Pow10(1) == 10;
      assert Fixed(1, 9) == Fixed(0, 0) + [Digit(9)];
    }
  }
}
