/** One upstream server and the recogniser of dotted-quad addresses. */
module UpstreamSettings {
  import opened Text

  /** What recognising an address ends in; `Throws` is a `std::stoi` exception. */
  datatype Verdict = IsIp | NotIp | Throws

  datatype Upstream = Upstream(address: string, weight: int, port: int, isIp: bool)

  // ---------- the recogniser as a function ----------

  /** Length of a leading octet with its dot, -1 if there is none, None if `stoi` throws. */
  function SubIpNum(s: string): (r: Option<int>)
    ensures r.Some? && r.value != -1 ==> 2 <= r.value <= |s|
  {
    var i := Span(s, 0, IsDigit);
    if i == 0 then Some(-1)
    else
      match Stoi(s[..i])
      case None => None
      case Some(num) =>
        if num < 0 || num > 255 || i == |s| || s[i] != '.' then Some(-1) else Some(i + 1)
  }

  /** Verdict on an address of which `dots` octets with dots and one last octet are still to come. */
  function Judge(s: string, dots: nat): Verdict
  {
    if dots > 0 then
      match SubIpNum(s)
      case None => Throws
      case Some(r) => if r == -1 then NotIp else Judge(s[r..], dots - 1)
    else if !AllDigits(s) then NotIp
    else
      match Stoi(s)
      case None => Throws
      case Some(num) => if num < 0 || num > 255 then NotIp else IsIp
  }

  lemma JudgeStep(s: string, i: nat, dots: nat)
    requires i <= |s| && dots > 0
    ensures match SubIpNum(s[i..])
            case None => Judge(s[i..], dots) == Throws
            case Some(r) => if r == -1 then Judge(s[i..], dots) == NotIp
                            else i + r <= |s| && Judge(s[i..], dots) == Judge(s[i + r..], dots - 1)
  {
    var r := SubIpNum(s[i..]);
    if r.Some? && r.value != -1 {
      assert s[i..][r.value..] == s[i + r.value..];
    }
  }

  // ---------- the class ----------

  class UpstreamSettings {
    var upstreamAddress: string
    var weight: int
    var port: int
    var isIp: bool

    function View(): Upstream
      reads this
    {
      Upstream(upstreamAddress, weight, port, isIp)
    }

    constructor ()
      ensures weight == 1 && port == 80
    {
      weight, port := 1, 80;
    }

    /** The constructor with arguments, which fails when `stoi` throws. */
    method Init(address: string, weight: int, port: int) returns (ok: bool)
      modifies this
      ensures ok <==> Judge(address, 3) != Throws
      ensures ok ==> View() == Upstream(address, weight, port, Judge(address, 3) == IsIp)
      ensures ok ==> upstreamAddress == address && this.weight == weight && this.port == port
    {
      ok := SetUpstreamAddress(address);
      if ok {
        this.weight := weight;
        this.port := port;
      }
    }

    method SetUpstreamAddress(address: string) returns (ok: bool)
      modifies `upstreamAddress, `isIp
      ensures upstreamAddress == address
      ensures ok <==> Judge(address, 3) != Throws
      ensures ok ==> isIp == (Judge(address, 3) == IsIp)
    {
      hide Judge, SubIpNum;
      upstreamAddress := address;
      var i: nat := 0;
      isIp := true;
      var round := 0;
      while round < 3
        invariant 0 <= round <= 3 && i <= |address|
        invariant isIp && upstreamAddress == address
        invariant Judge(address, 3) == Judge(address[i..], 3 - round)
      {
        var res, thrown := IsSubIpNum(address[i..]);
        JudgeStep(address, i, 3 - round);
        if thrown {
          return false;
        }
        if res == -1 {
          isIp := false;
          return true;
        }
        i := i + res;
        round := round + 1;
      }
      ok, isIp := IsLastOctet(address[i..]);
    }

    /** The part of `set_upstream_address` behind the third dot. */
    method IsLastOctet(s: string) returns (ok: bool, valid: bool)
      ensures ok <==> Judge(s, 0) != Throws
      ensures ok ==> valid == (Judge(s, 0) == IsIp)
    {
      var i := 0;
      while i < |s|
        invariant 0 <= i <= |s|
        invariant forall k :: 0 <= k < i ==> IsDigit(s[k])
      {
        if !IsDigit(s[i]) {
          return true, false;
        }
        i := i + 1;
      }
      var num := Stoi(s);
      if num == None {
        return false, false;
      }
      return true, 0 <= num.value <= 255;
    }

    method IsSubIpNum(s: string) returns (res: int, thrown: bool)
      ensures thrown <==> SubIpNum(s) == None
      ensures !thrown ==> SubIpNum(s) == Some(res)
    {
      var i := SkipWhile(s, 0, IsDigit);
      if i == 0 {
        return -1, false;
      }
      var num := Stoi(s[..i]);
      if num == None {
        return -1, true;
      }
      if num.value < 0 || num.value > 255 {
        return -1, false;
      }
      if i == |s| || s[i] != '.' {
        return -1, false;
      }
      return i + 1, false;
    }
  }

  // ---------- what an address is, independently of the recogniser ----------

  predicate Octet(o: string) {
    o != "" && AllDigits(o) && Value(o) <= 255
  }

  /** Four octets with dots between them. */
  ghost predicate Quad(s: string) {
    exists a, b, c, d :: QuadOf(s, a, b, c, d)
  }

  predicate QuadOf(s: string, a: string, b: string, c: string, d: string) {
    && Octet(a) && Octet(b) && Octet(c) && Octet(d)
    && s == a + "." + (b + "." + (c + "." + d))
  }

  /** `s` is `n` octets, each followed by a dot, and then `rest`. */
  ghost predicate Dotted(s: string, n: nat, rest: string)
    decreases n
  {
    if n == 0 then s == rest
    else exists i: nat | i < |s| :: OctetDot(s, i) && Dotted(s[i + 1..], n - 1, rest)
  }

  /** The first `i` characters of `s` are an octet and a dot follows. */
  predicate OctetDot(s: string, i: nat) {
    i < |s| && Octet(s[..i]) && s[i] == '.'
  }

  /** Where `stoi` throws: a digit run beyond the int range, or nothing at all as the fourth octet. */
  predicate Unreadable(rest: string, n: nat) {
    if n == 3 then AllDigits(rest) && (rest == "" || Value(rest) > INT_MAX)
    else Value(rest[..Span(rest, 0, IsDigit)]) > INT_MAX
  }

  lemma SubIpNumOfOctet(s: string, i: nat)
    requires OctetDot(s, i)
    ensures SubIpNum(s) == Some(i + 1)
  {
    assert forall k :: 0 <= k < i ==> s[..i][k] == s[k];
    SpanIs(s, 0, IsDigit, i);
    StoiDigits(s[..i]);
  }

  lemma JudgeOctet(s: string, i: nat, dots: nat)
    requires OctetDot(s, i) && dots > 0
    ensures Judge(s, dots) == Judge(s[i + 1..], dots - 1)
  {
    SubIpNumOfOctet(s, i);
  }

  /** The recogniser peels off the octets one by one. */
  lemma {:induction false} JudgePeels(s: string, n: nat, rest: string, dots: nat)
    requires Dotted(s, n, rest) && n <= dots
    ensures Judge(s, dots) == Judge(rest, dots - n)
    decreases n
  {
    hide Judge, SubIpNum;
    if n > 0 {
      var t := JudgePeelsOne(s, n, rest, dots);
      JudgePeels(t, n - 1, rest, dots - 1);
    }
  }

  lemma JudgePeelsOne(s: string, n: nat, rest: string, dots: nat) returns (t: string)
    requires Dotted(s, n, rest) && 0 < n <= dots
    ensures Dotted(t, n - 1, rest) && Judge(s, dots) == Judge(t, dots - 1)
  {
    var i: nat :| i < |s| && OctetDot(s, i) && Dotted(s[i + 1..], n - 1, rest);
    JudgeOctet(s, i, dots);
    t := s[i + 1..];
  }

  lemma LastStops(s: string)
    requires Judge(s, 0) != NotIp
    ensures if Judge(s, 0) == IsIp then Octet(s) else Unreadable(s, 3)
  {
    StoiDigits(s);
  }

  lemma OneMoreOctet(s: string, i: nat, n: nat, rest: string)
    requires OctetDot(s, i) && Dotted(s[i + 1..], n, rest)
    ensures Dotted(s, n + 1, rest)
  {
  }

  /** Conversely a verdict other than `NotIp` is reached behind some peeled octets. */
  lemma {:induction false} JudgeStops(s: string, dots: nat) returns (n: nat, rest: string)
    requires Judge(s, dots) != NotIp && dots <= 3
    ensures n <= dots && Dotted(s, n, rest)
    ensures Judge(s, dots) == IsIp ==> n == dots && Octet(rest)
    ensures Judge(s, dots) == Throws ==> Unreadable(rest, n + 3 - dots)
    decreases dots
  {
    hide SubIpNum, Stoi, Octet, OctetDot, Unreadable;
    n, rest := 0, s;
    if dots == 0 {
      LastStops(s);
    } else {
      SubIpNumInverse(s);
      if SubIpNum(s) != None {
        var r := SubIpNum(s).value;
        n, rest := JudgeStops(s[r..], dots - 1);
        OneMoreOctet(s, r - 1, n, rest);
        n := n + 1;
      }
    }
  }

  lemma SubIpNumInverse(s: string)
    ensures SubIpNum(s) == None ==> forall n | n < 3 :: Unreadable(s, n)
    ensures SubIpNum(s).Some? && SubIpNum(s).value != -1 ==> OctetDot(s, SubIpNum(s).value - 1)
  {
    SpanEnds(s, 0, IsDigit);
    StoiDigits(s[..Span(s, 0, IsDigit)]);
  }

  /** An octet in front is the same as the first octet of the concatenation. */
  lemma OctetInFront(o: string, t: string)
    requires Octet(o)
    ensures OctetDot(o + "." + t, |o|) && (o + "." + t)[|o| + 1..] == t
  {
    assert (o + "." + t)[..|o|] == o;
  }

  /** `is_ip` holds exactly of the four dot-separated runs of digits of at most 255 each. */
  lemma IsIpExactly(s: string)
    ensures Judge(s, 3) == IsIp <==> Quad(s)
  {
    if Judge(s, 3) == IsIp {
      var n, d := JudgeStops(s, 3);
      DottedIsQuad(s, d);
    }
    if Quad(s) {
      var a, b, c, d :| QuadOf(s, a, b, c, d);
      QuadIsIp(s, a, b, c, d);
    }
  }

  lemma DottedIsQuad(s: string, d: string)
    requires Dotted(s, 3, d) && Octet(d)
    ensures Quad(s)
  {
    var a, t := DottedHead(s, 3, d);
    var b, u := DottedHead(t, 2, d);
    var c, v := DottedHead(u, 1, d);
    assert QuadOf(s, a, b, c, d);
  }

  lemma DottedHead(s: string, n: nat, rest: string) returns (o: string, t: string)
    requires n > 0 && Dotted(s, n, rest)
    ensures Octet(o) && s == o + "." + t && Dotted(t, n - 1, rest)
  {
    var i: nat :| i < |s| && OctetDot(s, i) && Dotted(s[i + 1..], n - 1, rest);
    o, t := s[..i], s[i + 1..];
  }

  lemma QuadIsIp(s: string, a: string, b: string, c: string, d: string)
    requires QuadOf(s, a, b, c, d)
    ensures Judge(s, 3) == IsIp
  {
    var u := c + "." + d;
    var t := b + "." + u;
    OctetInFront(c, d);
    SubIpNumOfOctet(u, |c|);
    OctetInFront(b, u);
    SubIpNumOfOctet(t, |b|);
    OctetInFront(a, t);
    SubIpNumOfOctet(s, |a|);
    StoiDigits(d);
    assert Judge(d, 0) == IsIp;
    assert Judge(u, 1) == IsIp;
    assert Judge(t, 2) == IsIp;
  }

  lemma UnreadableThrows(rest: string, n: nat)
    requires n <= 3 && Unreadable(rest, n)
    ensures Judge(rest, 3 - n) == Throws
  {
    var i := Span(rest, 0, IsDigit);
    SpanEnds(rest, 0, IsDigit);
    StoiDigits(rest[..i]);
    if n == 3 {
      StoiDigits(rest);
    }
  }

  /** Reading an address throws exactly when it breaks off after a third dot or has an overlong run. */
  lemma ThrowsExactly(s: string)
    ensures Judge(s, 3) == Throws <==> exists n, rest :: n <= 3 && Dotted(s, n, rest) && Unreadable(rest, n)
  {
    hide Judge, Dotted, Unreadable;
    if Judge(s, 3) == Throws {
      var n, rest := JudgeStops(s, 3);
    }
    if exists n, rest :: n <= 3 && Dotted(s, n, rest) && Unreadable(rest, n) {
      var n: nat, rest :| n <= 3 && Dotted(s, n, rest) && Unreadable(rest, n);
      JudgePeels(s, n, rest, 3);
      UnreadableThrows(rest, n);
    }
  }

  function Render(a: nat, b: nat, c: nat, d: nat): string {
    Dec(a) + "." + (Dec(b) + "." + (Dec(c) + "." + Dec(d)))
  }

  /** The decimal rendering of any four octets is recognised (section 3.2.2 of RFC 3986). */
  lemma RenderedQuadIsIp(a: nat, b: nat, c: nat, d: nat)
    requires a <= 255 && b <= 255 && c <= 255 && d <= 255
    ensures Judge(Render(a, b, c, d), 3) == IsIp
  {
    QuadIsIp(Render(a, b, c, d), Dec(a), Dec(b), Dec(c), Dec(d));
  }

  /** An address that ends right behind its third dot is the throwing case the source overlooks. */
  lemma BrokenOffThrows()
    ensures Judge("1.2.3.", 3) == Throws
  {
    var s := "1.2.3.";
    assert s[..1] == Dec(1) && s[2..][..1] == Dec(2) && s[4..][..1] == Dec(3);
    assert s[2..][2..] == s[4..] && s[4..][2..] == "";
    SubIpNumOfOctet(s, 1);
    SubIpNumOfOctet(s[2..], 1);
    SubIpNumOfOctet(s[4..], 1);
    assert Judge("", 0) == Throws;
  }
}
