/** Cache keys for config requests: the parameter list travels inside the key as JSON text (RFC 8259, sections 2, 5
    and 6) and is read back from it when the request is made. A nil list is `None` and is written `null`. */
module ConfigKeys {
  import opened Options
  import opened Numbers

  type ParamList = Option<seq<uint32>>

  datatype ConfigKey = ConfigKey(mode: int, params: string, seqno: uint32)

  // ---- writing ----

  function DigitChar(d: nat): (c: char)
    requires d < 10
    ensures IsDigit(c) && DigitValue(c) == d
  {
    '0' + d as char
  }

  predicate IsDigit(c: char) {
    '0' <= c <= '9'
  }

  function DigitValue(c: char): nat
    requires IsDigit(c)
  {
    c as int - '0' as int
  }

  function Decimal(n: nat): (s: string)
    ensures |s| > 0
    ensures forall i :: 0 <= i < |s| ==> IsDigit(s[i])
    ensures |s| > 1 ==> s[0] != '0'
    ensures n > 0 ==> s[0] != '0'
  {
    if n < 10 then [DigitChar(n)] else Decimal(n / 10) + [DigitChar(n % 10)]
  }

  /** The elements, separated by commas, and the closing bracket. */
  function Body(xs: seq<uint32>): (s: string)
    ensures |s| > 0
  {
    if |xs| == 0 then "]"
    else Decimal(xs[0]) + if |xs| == 1 then "]" else "," + Body(xs[1..])
  }

  function Render(l: ParamList): string {
    match l
    case None => "null"
    case Some(xs) => "[" + Body(xs)
  }

  function NewConfigParamsKey(mode: int, params: ParamList, seqno: uint32): ConfigKey {
    ConfigKey(mode, Render(params), seqno)
  }

  // ---- reading ----

  predicate IsSpace(c: char) {
    c == ' ' || c == '\t' || c == '\n' || c == '\r'
  }

  function SkipSpace(s: string): (r: string)
    ensures |r| <= |s|
    ensures |r| > 0 ==> !IsSpace(r[0])
    ensures |s| > 0 && !IsSpace(s[0]) ==> r == s
  {
    if |s| > 0 && IsSpace(s[0]) then SkipSpace(s[1..]) else s
  }

  predicate StartsWithNull(s: string) {
    |s| >= 4 && s[0] == 'n' && s[1] == 'u' && s[2] == 'l' && s[3] == 'l'
  }

  function DigitCount(s: string): (n: nat)
    ensures n <= |s|
    ensures forall i :: 0 <= i < n ==> IsDigit(s[i])
  {
    if |s| > 0 && IsDigit(s[0]) then 1 + DigitCount(s[1..]) else 0
  }

  function ValueOf(digits: string): nat
    requires forall i :: 0 <= i < |digits| ==> IsDigit(digits[i])
  {
    if |digits| == 0 then 0 else ValueOf(digits[..|digits| - 1]) * 10 + DigitValue(digits[|digits| - 1])
  }

  /** A number without sign, fraction, exponent or leading zero that fits 32 bits; anything else is an error. */
  function ParseNumber(s: string): (r: Option<(uint32, string)>)
    ensures r.Some? ==> |r.value.1| < |s|
  {
    var n := DigitCount(s);
    if n == 0 || (n > 1 && s[0] == '0') || ValueOf(s[..n]) >= TWO_32 then None
    else Some((ValueOf(s[..n]), s[n..]))
  }

  /** `null` as an element leaves its slot at zero. */
  function ParseElement(s: string): (r: Option<(uint32, string)>)
    ensures r.Some? ==> |r.value.1| < |s|
  {
    if StartsWithNull(s) then Some((0, s[4..])) else ParseNumber(s)
  }

  /** One or more elements up to the closing bracket. */
  function ParseElements(s: string): Option<(seq<uint32>, string)>
    decreases |s|
  {
    match ParseElement(SkipSpace(s))
    case None => None
    case Some((x, rest)) =>
      var next := SkipSpace(rest);
      if |next| == 0 then None
      else if next[0] == ']' then Some(([x], next[1..]))
      else if next[0] != ',' then None
      else
        match ParseElements(next[1..])
        case None => None
        case Some((xs, end)) => Some(([x] + xs, end))
  }

  /** `None` is an error; trailing text other than white space is one. */
  function ParseParamList(s: string): Option<ParamList> {
    var t := SkipSpace(s);
    if StartsWithNull(t) then
      if SkipSpace(t[4..]) == "" then Some(None) else None
    else if |t| == 0 || t[0] != '[' then None
    else
      var body := SkipSpace(t[1..]);
      if |body| > 0 && body[0] == ']' then
        if SkipSpace(body[1..]) == "" then Some(Some([])) else None
      else
        match ParseElements(body)
        case None => None
        case Some((xs, end)) => if SkipSpace(end) == "" then Some(Some(xs)) else None
  }

  // ---- reading back what was written ----

  lemma {:induction false} DecimalValue(n: nat)
    ensures ValueOf(Decimal(n)) == n
  {
    if n >= 10 {
      DecimalValue(n / 10);
      var s := Decimal(n);
      assert s[..|s| - 1] == Decimal(n / 10);
    } else {
      assert Decimal(n)[..0] == "";
    }
  }

  lemma {:induction false} DigitCountStops(digits: string, rest: string)
    requires forall i :: 0 <= i < |digits| ==> IsDigit(digits[i])
    requires |rest| > 0 ==> !IsDigit(rest[0])
    ensures DigitCount(digits + rest) == |digits|
  {
    if |digits| == 0 {
      assert digits + rest == rest;
    } else {
      assert (digits + rest)[1..] == digits[1..] + rest;
      DigitCountStops(digits[1..], rest);
    }
  }

  lemma NumberReadsBack(x: uint32, rest: string)
    requires |rest| > 0 ==> !IsDigit(rest[0])
    ensures ParseElement(SkipSpace(Decimal(x) + rest)) == Some((x, rest))
  {
    var s := Decimal(x) + rest;
    assert s[0] == Decimal(x)[0];
    DigitCountStops(Decimal(x), rest);
    DecimalValue(x);
    assert s[..|Decimal(x)|] == Decimal(x) && s[|Decimal(x)|..] == rest;
  }

  lemma LastElementReadsBack(x: uint32)
    ensures ParseElements(Decimal(x) + "]") == Some(([x], ""))
  {
    NumberReadsBack(x, "]");
  }

  lemma NextElementReadsBack(x: uint32, more: string, xs: seq<uint32>, end: string)
    requires ParseElements(more) == Some((xs, end))
    ensures ParseElements(Decimal(x) + ("," + more)) == Some(([x] + xs, end))
  {
    var tail := "," + more;
    NumberReadsBack(x, tail);
    assert tail[0] == ',' && tail[1..] == more;
  }

  lemma {:induction false} ElementsReadBack(xs: seq<uint32>)
    requires |xs| > 0
    ensures ParseElements(Body(xs)) == Some((xs, ""))
  {
    if |xs| == 1 {
      LastElementReadsBack(xs[0]);
      assert xs == [xs[0]];
    } else {
      ElementsReadBack(xs[1..]);
      NextElementReadsBack(xs[0], Body(xs[1..]), xs[1..], "");
      assert xs == [xs[0]] + xs[1..];
    }
  }

  lemma BracketedReadsBack(body: string, xs: seq<uint32>)
    requires |body| > 0 && IsDigit(body[0]) && ParseElements(body) == Some((xs, ""))
    ensures ParseParamList("[" + body) == Some(Some(xs))
  {
    var s := "[" + body;
    assert s[0] == '[' && s[1..] == body;
  }

  /** The text itself: digits from the most significant on, and elements in brackets with commas between them. */
  lemma DecimalText(n: nat, d: nat)
    requires d < 10
    ensures Decimal(d) == [('0' as int + d) as char]
    ensures n > 0 ==> Decimal(10 * n + d) == Decimal(n) + [('0' as int + d) as char]
  {
  }

  lemma ListText(x: uint32, xs: seq<uint32>)
    ensures Render(None) == "null" && Render(Some([])) == "[]" && Render(Some([x])) == "[" + Decimal(x) + "]"
    ensures |xs| > 0 ==> Render(Some([x] + xs)) == "[" + Decimal(x) + "," + Render(Some(xs))[1..]
  {
    assert ([x] + xs)[1..] == xs;
  }

  /** Every list, nil and empty ones included, is read back from the text written for it. */
  lemma ParamListRoundTrip(l: ParamList)
    ensures ParseParamList(Render(l)) == Some(l)
  {
    match l {
      case None =>
        assert "null"[4..] == "";
      case Some(xs) =>
        if |xs| == 0 {
          assert Render(l) == "[]" && "[]"[1..] == "]" && "]"[1..] == "";
        } else {
          assert Body(xs)[0] == Decimal(xs[0])[0];
          ElementsReadBack(xs);
          BracketedReadsBack(Body(xs), xs);
        }
    }
  }

  /** So equal keys come from equal requests. */
  lemma KeysAreFaithful(mode: int, l: ParamList, seqno: uint32, mode': int, l': ParamList, seqno': uint32)
    ensures NewConfigParamsKey(mode, l, seqno) == NewConfigParamsKey(mode', l', seqno')
       <==> mode == mode' && l == l' && seqno == seqno'
  {
    ParamListRoundTrip(l);
    ParamListRoundTrip(l');
  }
}
