/** Characters, strings and decimal numbers as the C and C++ library calls of the server treat them. */
module Text {

  datatype Option<+T> = None | Some(value: T)

  const INT_MIN := -0x8000_0000
  const INT_MAX := 0x7fff_ffff

  // ---------- characters ----------

  /** `isspace` in the C locale: blank, \t, \n, \v, \f and \r. */
  predicate IsSpace(c: char) {
    c == ' ' || '\t' <= c <= '\r'
  }

  /** White space that does not end a line. */
  predicate IsBlank(c: char) {
    IsSpace(c) && c != '\n'
  }

  predicate IsSpaceChar(c: char) {
    c == ' '
  }

  predicate IsDigit(c: char) {
    '0' <= c <= '9'
  }

  function Lower(c: char): char {
    if 'A' <= c <= 'Z' then (c as int + 32) as char else c
  }

  function ToLower(s: string): (r: string)
    ensures |r| == |s|
    ensures forall i :: 0 <= i < |s| ==> r[i] == Lower(s[i])
  {
    seq(|s|, i requires 0 <= i < |s| => Lower(s[i]))
  }

  /** The character classes, character by character. */
  lemma Classes(c: char)
    ensures IsSpace(c) <==> c in [' ', '\t', '\n', 11 as char, 12 as char, '\r']
    ensures IsSpaceChar(c) <==> c in " "
    ensures IsDigit(c) <==> c in "0123456789"
  {
  }

  const UPPER_CASE := "ABCDEFGHIJKLMNOPQRSTUVWXYZ"
  const LOWER_CASE := "abcdefghijklmnopqrstuvwxyz"

  /** Each capital letter becomes its small one, and nothing else changes. */
  lemma LowerExactly(c: char)
    ensures forall i :: 0 <= i < 26 && UPPER_CASE[i] == c ==> Lower(c) == LOWER_CASE[i]
    ensures c !in UPPER_CASE ==> Lower(c) == c
  {
    forall i: nat | i < 26 ensures UPPER_CASE[i] as int == 'A' as int + i && LOWER_CASE[i] as int == 'a' as int + i {
      Letter(i);
    }
    if 'A' <= c <= 'Z' {
      var i := c as int - 'A' as int;
      assert UPPER_CASE[i] as int == c as int;
      assert UPPER_CASE[i] == c;
    }
  }

  lemma Letter(i: nat)
    requires i < 26
    ensures UPPER_CASE[i] as int == 'A' as int + i && LOWER_CASE[i] as int == 'a' as int + i
  {
  }

  lemma ToLowerIdempotent(s: string)
    ensures ToLower(ToLower(s)) == ToLower(s)
  {
  }

  // ---------- indexing and searching ----------

  /** `s[i]` of a C++ string, which yields the terminating zero at `i == s.size()`. */
  function At(s: string, i: nat): char
    requires i <= |s|
  {
    if i < |s| then s[i] else '\0'
  }

  /** The first index from `i` on whose character does not satisfy `p`; `|s|` if there is none. */
  function Span(s: string, i: nat, p: char -> bool): (j: nat)
    requires i <= |s|
    ensures i <= j <= |s|
    decreases |s| - i
  {
    if i < |s| && p(s[i]) then Span(s, i + 1, p) else i
  }

  /** `j` is where a run of characters satisfying `p` that starts at `i` ends. */
  predicate RunEnds(s: string, i: nat, p: char -> bool, j: nat) {
    && i <= j <= |s|
    && (forall k :: i <= k < j ==> p(s[k]))
    && (j < |s| ==> !p(s[j]))
  }

  lemma {:induction false} SpanEnds(s: string, i: nat, p: char -> bool)
    requires i <= |s|
    ensures RunEnds(s, i, p, Span(s, i, p))
    decreases |s| - i
  {
    if i < |s| && p(s[i]) {
      SpanEnds(s, i + 1, p);
    }
  }

  lemma {:induction false} SpanIs(s: string, i: nat, p: char -> bool, j: nat)
    requires RunEnds(s, i, p, j)
    ensures Span(s, i, p) == j
    decreases j - i
  {
    if i < j {
      SpanIs(s, i + 1, p, j);
    }
  }

  /** The loop `while (p(s[i])) i++` that the parsers are full of. */
  method SkipWhile(s: string, i: nat, p: char -> bool) returns (j: nat)
    requires i <= |s|
    ensures j == Span(s, i, p)
  {
    j := i;
    while j < |s| && p(s[j])
      invariant i <= j <= |s|
      invariant Span(s, i, p) == Span(s, j, p)
    {
      j := j + 1;
    }
  }

  /** `s.find(c, i)`, with `|s|` in place of npos. */
  function Find(s: string, c: char, i: nat): (j: nat)
    requires i <= |s|
    ensures i <= j <= |s|
    decreases |s| - i
  {
    if i < |s| && s[i] != c then Find(s, c, i + 1) else i
  }

  lemma {:induction false} FindIs(s: string, c: char, i: nat, j: nat)
    requires i <= j <= |s|
    requires forall k :: i <= k < j ==> s[k] != c
    requires j < |s| ==> s[j] == c
    ensures Find(s, c, i) == j
    decreases j - i
  {
    if i < j {
      FindIs(s, c, i + 1, j);
    }
  }

  /** `s.rfind(c)`, with -1 in place of npos. */
  function FindLast(s: string, c: char): (j: int)
    ensures -1 <= j < |s|
  {
    if |s| == 0 then -1
    else if s[|s| - 1] == c then |s| - 1
    else FindLast(s[..|s| - 1], c)
  }

  // ---------- fragments of a text ----------

  /** `frag` stands in `s` at position `i`, that is, `s.substr(i, frag.size()) == frag`. */
  predicate Here(s: string, i: nat, frag: string) {
    i + |frag| <= |s| && forall k :: 0 <= k < |frag| ==> s[i + k] == frag[k]
  }

  lemma HereSplit(s: string, i: nat, a: string, b: string)
    ensures Here(s, i, a + b) <==> Here(s, i, a) && Here(s, i + |a|, b)
  {
    if Here(s, i, a + b) {
      assert forall k :: 0 <= k < |a| ==> (a + b)[k] == a[k];
      assert forall k :: 0 <= k < |b| ==> (a + b)[|a| + k] == b[k];
    }
  }

  lemma HereFirst(s: string, i: nat, frag: string)
    requires Here(s, i, frag) && frag != ""
    ensures i < |s| && s[i] == frag[0]
  {
    assert s[i + 0] == frag[0];
  }

  lemma HereSlice(s: string, i: nat, frag: string)
    ensures Here(s, i, frag) <==> i + |frag| <= |s| && s[i..i + |frag|] == frag
  {
    if i + |frag| <= |s| {
      var t := s[i..i + |frag|];
      assert forall k :: 0 <= k < |frag| ==> t[k] == s[i + k];
    }
  }

  // ---------- decimal numbers ----------

  predicate AllDigits(s: string) {
    forall i :: 0 <= i < |s| ==> IsDigit(s[i])
  }

  function DigitValue(c: char): (n: nat)
    ensures n < 10
  {
    if IsDigit(c) then c as int - '0' as int else 0
  }

  /** The number a run of digits denotes. */
  function Value(ds: string): nat
  {
    if ds == "" then 0 else 10 * Value(ds[..|ds| - 1]) + DigitValue(ds[|ds| - 1])
  }

  /** Decimal digits of a natural number, without leading zeros. */
  function Dec(n: nat): (s: string)
    ensures s != "" && AllDigits(s)
    ensures Value(s) == n
  {
    if n < 10 then
      var s := [(n + '0' as int) as char];
      assert s[..0] == "";
      s
    else
      var t := Dec(n / 10);
      var s := t + [(n % 10 + '0' as int) as char];
      assert s[..|s| - 1] == t;
      s
  }

  /** A numeral is read in base ten: it denotes the sum of its digits times their powers. */
  lemma {:induction false} ValueIsDecimal(ds: string, d: nat)
    requires d < 10
    ensures Value("") == 0 && Value(ds + ["0123456789"[d]]) == 10 * Value(ds) + d
  {
    Digit(d);
    var s := ds + ["0123456789"[d]];
    assert s[..|s| - 1] == ds && s[|s| - 1] == "0123456789"[d];
  }

  lemma Digit(d: nat)
    requires d < 10
    ensures "0123456789"[d] as int == '0' as int + d
  {
  }

  /** `std::to_string` of an int. */
  function ToString(n: int): string {
    if n < 0 then "-" + Dec(-n) else Dec(n)
  }

  /** A number read at a position, and the position behind it. */
  datatype Scanned = Scanned(value: int, next: nat)

  /** One `%d` of `sscanf`, which is also what `std::stoi` reads: white space, a sign, digits. */
  function ScanInt(s: string, i: nat): (r: Option<Scanned>)
    requires i <= |s|
    ensures r.Some? ==> i < r.value.next <= |s|
  {
    var p := Span(s, i, IsSpace);
    var q := if At(s, p) == '-' || At(s, p) == '+' then p + 1 else p;
    var e := Span(s, q, IsDigit);
    if e == q then None
    else
      var v: int := Value(s[q..e]);
      Some(Scanned(if At(s, p) == '-' then -v else v, e))
  }

  /** `std::stoi`; None stands for its two exceptions. */
  function Stoi(s: string): (r: Option<int>)
    ensures r.Some? ==> INT_MIN <= r.value <= INT_MAX
  {
    var r := ScanInt(s, 0);
    if r.Some? && INT_MIN <= r.value.value <= INT_MAX then Some(r.value.value) else None
  }

  /** What `to_string` prints is what `%d` reads back, whatever follows it but a digit. */
  lemma ScanPrinted(s: string, i: nat, n: int)
    requires Here(s, i, ToString(n))
    requires i + |ToString(n)| < |s| ==> !IsDigit(s[i + |ToString(n)|])
    ensures ScanInt(s, i) == Some(Scanned(n, i + |ToString(n)|))
  {
    if n < 0 {
      HereSplit(s, i, "-", Dec(-n));
      HereFirst(s, i, "-");
      DigitsHere(s, i + 1, Dec(-n));
    } else {
      DigitsHere(s, i, Dec(n));
    }
  }

  /** A maximal run of digits is what the digit loop stops behind. */
  lemma DigitsHere(s: string, i: nat, ds: string)
    requires ds != "" && AllDigits(ds) && Here(s, i, ds)
    requires i + |ds| < |s| ==> !IsDigit(s[i + |ds|])
    ensures Span(s, i, IsDigit) == i + |ds| && s[i..i + |ds|] == ds && IsDigit(s[i])
  {
    forall k | i <= k < i + |ds| ensures IsDigit(s[k]) {
      assert s[i + (k - i)] == ds[k - i];
    }
    HereSlice(s, i, ds);
    SpanIs(s, i, IsDigit, i + |ds|);
  }

  /** `stoi` of a run of digits fails exactly when the run is empty or too large for an int. */
  lemma StoiDigits(ds: string)
    requires AllDigits(ds)
    ensures Stoi(ds) == if ds == "" || Value(ds) > 2147483647 then None else Some(Value(ds))
  {
    if ds != "" {
      SpanIs(ds, 0, IsDigit, |ds|);
      assert ds[0..|ds|] == ds;
    }
  }

  predicate Blanks(s: string) {
    forall i :: 0 <= i < |s| ==> IsSpace(s[i])
  }

  /** Behind white space and at most one sign a run of digits is read as far as it goes, with its sign. */
  lemma ScanReads(s: string, i: nat, blanks: string, sign: string, ds: string)
    requires Blanks(blanks) && sign in ["", "+", "-"] && ds != "" && AllDigits(ds)
    requires Here(s, i, blanks + (sign + ds))
    requires var e := i + |blanks| + |sign| + |ds|; e < |s| ==> !IsDigit(s[e])
    ensures var v: int := Value(ds);
            ScanInt(s, i) == Some(Scanned(if sign == "-" then -v else v, i + |blanks| + |sign| + |ds|))
  {
    hide ScanInt, Value, AllDigits, Here;
    var p := i + |blanks|;
    HereSplit(s, i, blanks, sign + ds);
    HereSplit(s, p, sign, ds);
    DigitsHere(s, p + |sign|, ds);
    if sign != "" {
      HereFirst(s, p, sign);
      assert s[p] == sign[0] && (s[p] == '+' || s[p] == '-');
    }
    SpanBlanks(s, i, blanks);
    ScanByParts(s, i, p, p + |sign|, p + |sign| + |ds|);
  }

  lemma SpanBlanks(s: string, i: nat, blanks: string)
    requires Blanks(blanks) && Here(s, i, blanks)
    requires i + |blanks| < |s| ==> !IsSpace(s[i + |blanks|])
    ensures Span(s, i, IsSpace) == i + |blanks|
  {
    forall k | i <= k < i + |blanks| ensures IsSpace(s[k]) {
      assert s[i + (k - i)] == blanks[k - i];
    }
    SpanIs(s, i, IsSpace, i + |blanks|);
  }

  lemma ScanByParts(s: string, i: nat, p: nat, q: nat, e: nat)
    requires i <= p <= q < e <= |s| && Span(s, i, IsSpace) == p && Span(s, q, IsDigit) == e
    requires q == if s[p] == '-' || s[p] == '+' then p + 1 else p
    ensures var v: int := Value(s[q..e]); ScanInt(s, i) == Some(Scanned(if s[p] == '-' then -v else v, e))
  {
    hide Value, Span;
  }

  /** Nothing is read exactly if behind the white space there is no digit, be it with or without a sign. */
  lemma ScanFailsExactly(s: string, i: nat, p: nat)
    requires RunEnds(s, i, IsSpace, p)
    ensures ScanInt(s, i) == None
            <==> var q := if p < |s| && (s[p] == '-' || s[p] == '+') then p + 1 else p; q == |s| || !IsDigit(s[q])
  {
    SpanIs(s, i, IsSpace, p);
    var q := if At(s, p) == '-' || At(s, p) == '+' then p + 1 else p;
    SpanEnds(s, q, IsDigit);
  }
}
