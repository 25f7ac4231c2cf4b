/** SIP messages as the parser hands them to the engine, status codes, and generated tags. */
module SipMessages {

  datatype Option<+T> = None | Some(value: T)

  /** The status codes of eserror.h that the modelled functions return. */
  datatype Status = Ok | Unknown | OutOfResources | NullPointer | IllegalAction | NetworkProblem

  datatype Method = Invite | Ack | Bye | Register | Extension(name: string)

  datatype StartLine = RequestLine(verb: Method) | StatusLine(code: nat)

  datatype Via = Via(branch: Option<string>, sentBy: string)

  /** A From or To header; `uri` stands for everything but the tag. */
  datatype Address = Address(uri: string, tag: Option<string>)

  datatype CSeq = CSeq(number: nat, verb: Method)

  /** A header that may be missing from a parsed message is an Option. */
  datatype Message = Message(
    start: StartLine,
    vias: seq<Via>,
    from: Option<Address>,
    to: Option<Address>,
    callId: Option<string>,
    cseq: Option<CSeq>)

  predicate IsRequest(m: Message, verb: Method) {
    m.start == RequestLine(verb)
  }

  predicate Is2xx(m: Message) {
    m.start.StatusLine? && 200 <= m.start.code < 300
  }

  // ---------- generated tags ----------

  type UInt32 = x: int | 0 <= x < 0x1_0000_0000

  /** What `%d` makes of an unsigned 32-bit argument. */
  function AsSigned(r: UInt32): int {
    if r < 0x8000_0000 then r else r - 0x1_0000_0000
  }

  function Digit(d: nat): (c: char)
    requires d < 10
  {
    "0123456789"[d]
  }

  function Decimal(n: nat): (s: string)
    ensures |s| >= 1 && s[0] != '-'
  {
    if n < 10 then [Digit(n)] else Decimal(n / 10) + [Digit(n % 10)]
  }

  function PrintInt(n: int): (s: string)
    ensures |s| >= 1 && (s[0] == '-' <==> n < 0)
  {
    if n < 0 then "-" + Decimal(-n) else Decimal(n)
  }

  /** The text of a To tag built from one random number. */
  function TagText(r: UInt32): string {
    PrintInt(AsSigned(r))
  }

  /** The value of a string of decimal digits; of any other string, nothing useful. */
  function ReadNat(s: string): nat {
    if s == "" then 0
    else
      var c := s[|s| - 1];
      10 * ReadNat(s[..|s| - 1]) + (if '0' <= c <= '9' then c as nat - '0' as nat else 0)
  }

  /** The integer that decimal text with an optional minus sign denotes. */
  function ReadInt(s: string): int {
    if s != "" && s[0] == '-' then -(ReadNat(s[1..]) as int) else ReadNat(s)
  }

  lemma {:induction false} DecimalReadsBack(n: nat)
    ensures ReadNat(Decimal(n)) == n
  {
    var s := Decimal(n);
    DigitReadsBack(n % 10);
    if n < 10 {
      assert s[..0] == "";
    } else {
      assert s[..|s| - 1] == Decimal(n / 10);
      DecimalReadsBack(n / 10);
    }
  }

  lemma DigitReadsBack(d: nat)
    requires d < 10
    ensures '0' <= Digit(d) <= '9' && Digit(d) as nat - '0' as nat == d
  {
  }

  predicate AllDigits(s: string) {
    forall i :: 0 <= i < |s| ==> '0' <= s[i] <= '9'
  }

  lemma {:induction false} DecimalIsPlain(n: nat)
    ensures AllDigits(Decimal(n)) && (n > 0 ==> Decimal(n)[0] != '0') && (n < 10 ==> |Decimal(n)| == 1)
  {
    if n >= 10 {
      DecimalIsPlain(n / 10);
    }
  }

  /**
   * The tag is the decimal text of the draw, read as a signed 32-bit number: digits without a leading zero, after a
   * minus sign when that number is negative.
   */
  lemma TagTextReads(r: UInt32)
    ensures ReadInt(TagText(r)) == if r < 0x8000_0000 then r else r - 0x1_0000_0000
    ensures TagText(r) != "" && (TagText(r)[0] == '-' <==> 0x8000_0000 <= r)
    ensures var digits := if r < 0x8000_0000 then TagText(r) else TagText(r)[1..];
            AllDigits(digits) && digits != "" && (|digits| > 1 ==> digits[0] != '0')
  {
    var n := AsSigned(r);
    var m := if n < 0 then -n else n;
    if n < 0 {
      assert PrintInt(n)[1..] == Decimal(m);
    }
    DecimalReadsBack(m);
    DecimalIsPlain(m);
  }

  /** Distinct random numbers give distinct tags, although `%d` reads them as signed. */
  lemma TagTextInjective(a: UInt32, b: UInt32)
    requires TagText(a) == TagText(b)
    ensures a == b
  {
    TagTextReads(a);
    TagTextReads(b);
  }
}
