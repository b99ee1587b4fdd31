/** UTF-8 (section 3 of RFC 3629), decoded with one U+FFFD for each maximal ill-formed part (section 3.9 of
  * the Unicode Standard).
  */
module Utf8 {
  import opened Basics

  const REPLACEMENT: char := '\U{FFFD}'

  function Encode(c: char): (r: seq<Byte>)
    ensures 1 <= |r| <= 4
  {
    var n := c as int;
    if n < 0x80 then [n]
    else if n < 0x800 then [0xC0 + n / 64, 0x80 + n % 64]
    else if n < 0x10000 then [0xE0 + n / 4096, 0x80 + n / 64 % 64, 0x80 + n % 64]
    else [0xF0 + n / 262144, 0x80 + n / 4096 % 64, 0x80 + n / 64 % 64, 0x80 + n % 64]
  }

  function EncodeAll(text: string): seq<Byte> {
    if text == [] then [] else Encode(text[0]) + EncodeAll(text[1..])
  }

  /** What may follow a lead byte: how many bytes, and the range of the first of them. */
  datatype Lead = Lead(count: nat, lo: Byte, hi: Byte)

  function LeadOf(b: Byte): Option<Lead> {
    if b < 0x80 then Some(Lead(0, 0x80, 0xBF))
    else if 0xC2 <= b <= 0xDF then Some(Lead(1, 0x80, 0xBF))
    else if b == 0xE0 then Some(Lead(2, 0xA0, 0xBF))
    else if b == 0xED then Some(Lead(2, 0x80, 0x9F))
    else if 0xE1 <= b <= 0xEF then Some(Lead(2, 0x80, 0xBF))
    else if b == 0xF0 then Some(Lead(3, 0x90, 0xBF))
    else if 0xF1 <= b <= 0xF3 then Some(Lead(3, 0x80, 0xBF))
    else if b == 0xF4 then Some(Lead(3, 0x80, 0x8F))
    else None
  }

  /** How many of the wanted bytes are there: the first in [lo, hi], the others in [80, BF]. */
  function Trail(bytes: seq<Byte>, want: nat, lo: Byte, hi: Byte): (n: nat)
    ensures n <= want && n <= |bytes|
  {
    if want == 0 || bytes == [] || !(lo <= bytes[0] <= hi) then 0
    else 1 + Trail(bytes[1..], want - 1, 0x80, 0xBF)
  }

  /** What byte i after the lead must be. */
  predicate Fits(b: Byte, i: nat, lo: Byte, hi: Byte) {
    if i == 0 then lo <= b <= hi else 0x80 <= b <= 0xBF
  }

  /** The bytes counted fit, and the one after them, if one is wanted and there, does not. */
  lemma {:induction false} TrailBytes(bytes: seq<Byte>, want: nat, lo: Byte, hi: Byte)
    ensures var n := Trail(bytes, want, lo, hi);
            && (forall i | 0 <= i < n :: Fits(bytes[i], i, lo, hi))
            && (n < want && n < |bytes| ==> !Fits(bytes[n], n, lo, hi))
    decreases want
  {
    if want > 0 && bytes != [] && lo <= bytes[0] <= hi {
      TrailBytes(bytes[1..], want - 1, 0x80, 0xBF);
      assert forall i | 0 < i <= Trail(bytes[1..], want - 1, 0x80, 0xBF) && i < |bytes| ::
               bytes[i] == bytes[1..][i - 1];
    }
  }

  /** The scalar value of a well-formed sequence with n trailing bytes. */
  function Scalar(bytes: seq<Byte>, n: nat): int
    requires n <= 3 && |bytes| > n
  {
    if n == 0 then bytes[0]
    else if n == 1 then (bytes[0] as int - 0xC0) * 64 + (bytes[1] as int - 0x80)
    else if n == 2 then (bytes[0] as int - 0xE0) * 4096 + (bytes[1] as int - 0x80) * 64 + (bytes[2] as int - 0x80)
    else
      (bytes[0] as int - 0xF0) * 262144 + (bytes[1] as int - 0x80) * 4096
      + (bytes[2] as int - 0x80) * 64 + (bytes[3] as int - 0x80)
  }

  lemma ScalarIsChar(bytes: seq<Byte>, lead: Lead)
    requires bytes != [] && LeadOf(bytes[0]) == Some(lead)
    requires Trail(bytes[1..], lead.count, lead.lo, lead.hi) == lead.count
    ensures lead.count <= 3 && |bytes| > lead.count
    ensures var n := Scalar(bytes, lead.count); 0 <= n < 0xD800 || 0xE000 <= n < 0x110000
  {
    TrailBytes(bytes[1..], lead.count, lead.lo, lead.hi);
    assert lead.count >= 1 ==> Fits(bytes[1..][0], 0, lead.lo, lead.hi);
    assert lead.count >= 2 ==> Fits(bytes[1..][1], 1, lead.lo, lead.hi);
    assert lead.count >= 3 ==> Fits(bytes[1..][2], 2, lead.lo, lead.hi);
  }

  /** The first character and the bytes it takes; None for an ill-formed part. */
  function Step(bytes: seq<Byte>): (r: (Option<char>, nat))
    requires bytes != []
    ensures 1 <= r.1 <= |bytes|
  {
    match LeadOf(bytes[0])
    case None => (None, 1)
    case Some(lead) =>
      var n := Trail(bytes[1..], lead.count, lead.lo, lead.hi);
      if n < lead.count then (None, 1 + n)
      else
        ScalarIsChar(bytes, lead);
        (Some(Scalar(bytes, n) as char), 1 + n)
  }

  function Decode(bytes: seq<Byte>): (r: string)
    ensures bytes != [] ==> r != []
  {
    if bytes == [] then []
    else
      var (c, n) := Step(bytes);
      [if c.Some? then c.value else REPLACEMENT] + Decode(bytes[n..])
  }

  /** bytes.decode("utf-8", errors="ignore"). */
  function DecodeIgnoring(bytes: seq<Byte>): string {
    if bytes == [] then []
    else
      var (c, n) := Step(bytes);
      (if c.Some? then [c.value] else []) + DecodeIgnoring(bytes[n..])
  }

  // --- round trip -------------------------------------------------------------------------------

  lemma {:induction false} TrailOfGood(bytes: seq<Byte>, want: nat, lo: Byte, hi: Byte)
    requires want <= |bytes| && forall i | 0 <= i < want :: Fits(bytes[i], i, lo, hi)
    ensures Trail(bytes, want, lo, hi) == want
    decreases want
  {
    if want > 0 {
      assert Fits(bytes[0], 0, lo, hi);
      forall i | 0 <= i < want - 1
        ensures Fits(bytes[1..][i], i, 0x80, 0xBF)
      {
        assert Fits(bytes[i + 1], i + 1, lo, hi);
      }
      TrailOfGood(bytes[1..], want - 1, 0x80, 0xBF);
    }
  }

  lemma StepOfEncoded(c: char, more: seq<Byte>)
    ensures Step(Encode(c) + more) == (Some(c), |Encode(c)|)
  {
    hide Trail, Encode, LeadOf, Scalar;
    var bytes := Encode(c) + more;
    EncodedParts(c);
    var lead := LeadOf(bytes[0]).value;
    assert bytes[1..] == Encode(c)[1..] + more;
    assert forall i | 0 <= i < lead.count :: bytes[1..][i] == Encode(c)[1..][i];
    TrailOfGood(bytes[1..], lead.count, lead.lo, lead.hi);
    ScalarIsFinal(Encode(c), more);
  }

  /** An encoded character is a lead byte, as many trailing bytes as it wants, and their bits together. */
  lemma EncodedParts(c: char)
    ensures var bytes := Encode(c);
            && LeadOf(bytes[0]).Some?
            && var lead := LeadOf(bytes[0]).value;
              && |bytes| == 1 + lead.count
              && (forall i | 0 <= i < lead.count :: Fits(bytes[1..][i], i, lead.lo, lead.hi))
              && lead.count <= 3 && Scalar(bytes, lead.count) == c as int
  {
    SixBits(c as int);
  }

  lemma SixBits(n: nat)
    ensures n == n / 64 * 64 + n % 64
    ensures n / 64 == n / 4096 * 64 + n / 64 % 64
    ensures n / 4096 == n / 262144 * 64 + n / 4096 % 64
  {
  }

  lemma {:induction false} DecodeOfEncoded(text: string)
    ensures Decode(EncodeAll(text)) == text
  {
    if text != [] {
      hide Step, Encode;
      StepOfEncoded(text[0], EncodeAll(text[1..]));
      DecodeOfEncoded(text[1..]);
      assert (Encode(text[0]) + EncodeAll(text[1..]))[|Encode(text[0])|..] == EncodeAll(text[1..]);
    }
  }

  // --- what a step means ------------------------------------------------------------------------

  /** A character is read exactly where its encoding stands. */
  lemma StepReadsEncoding(bytes: seq<Byte>, c: char)
    requires bytes != []
    ensures Encode(c) <= bytes <==> Step(bytes).0 == Some(c)
    ensures Encode(c) <= bytes ==> Step(bytes) == (Some(c), |Encode(c)|)
  {
    hide Step, Encode;
    if Encode(c) <= bytes {
      var more := bytes[|Encode(c)|..];
      assert bytes == Encode(c) + more;
      StepOfEncoded(c, more);
    }
    if Step(bytes).0.Some? {
      EncodingOfStep(bytes);
    }
  }

  lemma EncodingOfStep(bytes: seq<Byte>)
    requires bytes != [] && Step(bytes).0.Some?
    ensures Encode(Step(bytes).0.value) <= bytes
  {
    hide Encode, Scalar;
    var lead := LeadOf(bytes[0]).value;
    var all := bytes[..1 + lead.count];
    TrailBytes(bytes[1..], lead.count, lead.lo, lead.hi);
    assert all[1..] == bytes[1..][..lead.count];
    ScalarEncodes(all, lead);
    ScalarIsFinal(all, bytes[1 + lead.count..]);
    assert all + bytes[1 + lead.count..] == bytes;
  }

  /** A lead byte and the trailing bytes it wants are the encoding of their scalar value. */
  lemma ScalarEncodes(bytes: seq<Byte>, lead: Lead)
    requires bytes != [] && LeadOf(bytes[0]) == Some(lead) && |bytes| == 1 + lead.count
    requires forall i | 0 <= i < lead.count :: Fits(bytes[1..][i], i, lead.lo, lead.hi)
    ensures var n := Scalar(bytes, lead.count);
            && (0 <= n < 0xD800 || 0xE000 <= n < 0x110000)
            && Encode(n as char) == bytes
  {
    hide Encode;
    ScalarIsInRange(bytes, lead);
    if lead.count == 0 {
      EncodeOne(bytes[0]);
      assert bytes == [bytes[0]];
    } else if lead.count == 1 {
      EncodeTwo(bytes[0] - 0xC0, bytes[1] - 0x80);
      assert bytes == [bytes[0], bytes[1]];
    } else if lead.count == 2 {
      EncodeThree(bytes[0] - 0xE0, bytes[1] - 0x80, bytes[2] - 0x80);
      assert bytes == [bytes[0], bytes[1], bytes[2]];
    } else {
      EncodeFour(bytes[0] - 0xF0, bytes[1] - 0x80, bytes[2] - 0x80, bytes[3] - 0x80);
      assert bytes == [bytes[0], bytes[1], bytes[2], bytes[3]];
    }
  }

  lemma ScalarIsInRange(bytes: seq<Byte>, lead: Lead)
    requires bytes != [] && LeadOf(bytes[0]) == Some(lead) && |bytes| == 1 + lead.count
    requires forall i | 0 <= i < lead.count :: Fits(bytes[1..][i], i, lead.lo, lead.hi)
    ensures lead.count <= 3
    ensures forall i | 0 < i <= lead.count :: 0x80 <= bytes[i] <= 0xBF
    ensures var n := Scalar(bytes, lead.count);
            && (0 <= n < 0xD800 || 0xE000 <= n < 0x110000)
            && (if lead.count == 0 then n < 0x80 else if lead.count == 1 then 0x80 <= n < 0x800
                else if lead.count == 2 then 0x800 <= n < 0x10000 else 0x10000 <= n)
  {
    assert forall i | 0 <= i < lead.count :: bytes[1..][i] == bytes[i + 1];
    assert lead.count >= 1 ==> Fits(bytes[1..][0], 0, lead.lo, lead.hi);
    assert lead.count >= 2 ==> Fits(bytes[1..][1], 1, lead.lo, lead.hi);
    assert lead.count >= 3 ==> Fits(bytes[1..][2], 2, lead.lo, lead.hi);
  }

  lemma EncodeOne(n: nat)
    requires n < 0x80
    ensures Encode(n as char) == [n]
  {
  }

  lemma EncodeTwo(a: nat, b: nat)
    requires a < 64 && b < 64 && 0x80 <= a * 64 + b < 0x800
    ensures Encode((a * 64 + b) as char) == [0xC0 + a, 0x80 + b]
  {
    FourBytes(0, 0, a, b);
  }

  lemma EncodeThree(a: nat, b: nat, c: nat)
    requires b < 64 && c < 64
    requires var n := a * 4096 + b * 64 + c; 0x800 <= n < 0x10000 && !(0xD800 <= n < 0xE000)
    ensures Encode((a * 4096 + b * 64 + c) as char) == [0xE0 + a, 0x80 + b, 0x80 + c]
  {
    FourBytes(0, a, b, c);
  }

  lemma EncodeFour(a: nat, b: nat, c: nat, d: nat)
    requires b < 64 && c < 64 && d < 64
    requires 0x10000 <= a * 262144 + b * 4096 + c * 64 + d < 0x110000
    ensures Encode((a * 262144 + b * 4096 + c * 64 + d) as char) == [0xF0 + a, 0x80 + b, 0x80 + c, 0x80 + d]
  {
    FourBytes(a, b, c, d);
  }

  lemma FourBytes(a: nat, b: nat, c: nat, d: nat)
    requires c < 64 && d < 64
    ensures var n := a * 262144 + b * 4096 + c * 64 + d;
            && n % 64 == d && n / 64 % 64 == c && n / 64 == a * 4096 + b * 64 + c && n / 4096 == a * 64 + b
            && (b < 64 ==> n / 4096 % 64 == b && n / 262144 == a)
  {
  }

  /** An ill-formed part is maximal: it is the start of some character's encoding, or a single byte, and with
    * one byte more it would not be the start of any. */
  lemma IllFormedIsMaximal(bytes: seq<Byte>)
    requires bytes != [] && Step(bytes).0 == None
    ensures var n := Step(bytes).1;
            && (n == 1 || exists c :: bytes[..n] < Encode(c))
            && (n < |bytes| ==> forall c :: !(bytes[..n + 1] <= Encode(c)))
  {
    hide Encode;
    var n := Step(bytes).1;
    if n > 1 {
      var lead := LeadOf(bytes[0]).value;
      TrailBytes(bytes[1..], lead.count, lead.lo, lead.hi);
      assert bytes[..n][1..] == bytes[1..][..n - 1];
      var c := Filled(bytes[..n], lead);
    }
    if n < |bytes| {
      forall c
        ensures !(bytes[..n + 1] <= Encode(c))
      {
        NotLonger(bytes, n, c);
      }
    }
  }

  /** The missing bytes can be filled in. */
  lemma Filled(bytes: seq<Byte>, lead: Lead) returns (c: char)
    requires 1 < |bytes| <= lead.count && LeadOf(bytes[0]) == Some(lead)
    requires forall i | 0 <= i < |bytes| - 1 :: Fits(bytes[1..][i], i, lead.lo, lead.hi)
    ensures bytes < Encode(c)
  {
    hide Encode, Scalar;
    var all: seq<Byte> := bytes + seq(1 + lead.count - |bytes|, _ => 0x80);
    forall i | 0 <= i < lead.count
      ensures Fits(all[1..][i], i, lead.lo, lead.hi)
    {
      assert i < |bytes| - 1 ==> all[1..][i] == bytes[1..][i];
    }
    ScalarEncodes(all, lead);
    c := Scalar(all, lead.count) as char;
  }

  lemma NotLonger(bytes: seq<Byte>, n: nat, c: char)
    requires 0 < n < |bytes| && Step(bytes) == (None, n)
    ensures !(bytes[..n + 1] <= Encode(c))
  {
    hide Encode, Scalar;
    EncodedParts(c);
    if LeadOf(bytes[0]).Some? {
      var lead := LeadOf(bytes[0]).value;
      TrailBytes(bytes[1..], lead.count, lead.lo, lead.hi);
      assert bytes[1..][n - 1] == bytes[n] == bytes[..n + 1][n];
      assert |Encode(c)| > n ==> Encode(c)[1..][n - 1] == Encode(c)[n];
    }
    assert bytes[..n + 1][0] == bytes[0];
  }

  // --- more bytes -------------------------------------------------------------------------------

  /** A part that ends before the end of the input does not change when more bytes come; neither does a
    * whole character. */
  lemma StepIsFinal(bytes: seq<Byte>, more: seq<Byte>)
    requires bytes != []
    requires Step(bytes).0.Some? || Step(bytes).1 < |bytes|
    ensures Step(bytes + more) == Step(bytes)
  {
    hide Trail, Scalar;
    var all := bytes + more;
    assert all[1..] == bytes[1..] + more;
    if LeadOf(bytes[0]).Some? {
      var lead := LeadOf(bytes[0]).value;
      TrailIsFinal(bytes[1..], more, lead.count, lead.lo, lead.hi);
      ScalarIsFinal(bytes, more);
    }
  }

  lemma ScalarIsFinal(bytes: seq<Byte>, more: seq<Byte>)
    ensures forall n: nat | n <= 3 && n < |bytes| :: Scalar(bytes + more, n) == Scalar(bytes, n)
  {
  }

  lemma {:induction false} TrailIsFinal(bytes: seq<Byte>, more: seq<Byte>, want: nat, lo: Byte, hi: Byte)
    requires var n := Trail(bytes, want, lo, hi); n == want || n < |bytes|
    ensures Trail(bytes + more, want, lo, hi) == Trail(bytes, want, lo, hi)
    decreases want
  {
    if want > 0 && bytes != [] {
      assert (bytes + more)[1..] == bytes[1..] + more;
      if lo <= bytes[0] <= hi {
        TrailIsFinal(bytes[1..], more, want - 1, 0x80, 0xBF);
      }
    }
  }

  /** Text that does not end with U+FFFD is final: whatever bytes follow only add to it. */
  lemma {:induction false} FinishedTextIsFinal(bytes: seq<Byte>, more: seq<Byte>)
    requires Decode(bytes) != [] ==> Last(Decode(bytes)) != REPLACEMENT
    ensures Decode(bytes + more) == Decode(bytes) + Decode(more)
    decreases |bytes|
  {
    hide Step, Decode;
    if bytes == [] {
      DecodeNothing();
      assert bytes + more == more;
    } else {
      var (c, n) := Step(bytes);
      DecodeStep(bytes);
      DecodeNothing();
      assert n == |bytes| ==> bytes[n..] == [];
      if n < |bytes| || c.Some? {
        StepIsFinal(bytes, more);
        DecodeStep(bytes + more);
        assert (bytes + more)[n..] == bytes[n..] + more;
        FinishedTextIsFinal(bytes[n..], more);
      }
    }
  }

  lemma DecodeNothing()
    ensures Decode([]) == []
  {
  }

  lemma DecodeStep(bytes: seq<Byte>)
    requires bytes != []
    ensures var (c, n) := Step(bytes);
            Decode(bytes) == [if c.Some? then c.value else REPLACEMENT] + Decode(bytes[n..])
  {
  }

  // --- clipping ---------------------------------------------------------------------------------

  /** commonnet's report and stash clip an answer to a number of bytes: common/common.py _truncate_bytes. */
  function TruncateBytes(text: string, limit: nat): (string, bool) {
    var raw := EncodeAll(text);
    if |raw| <= limit then (text, false) else (DecodeIgnoring(raw[..limit]), true)
  }

  /** The start of one encoded character is one ill-formed part. */
  lemma StepOfCut(c: char, n: nat)
    requires 0 < n < |Encode(c)|
    ensures Step(Encode(c)[..n]) == (None, n)
  {
    hide Encode, Scalar;
    var bytes := Encode(c)[..n];
    EncodedParts(c);
    var lead := LeadOf(bytes[0]).value;
    assert bytes[1..] == Encode(c)[1..][..n - 1];
    TrailOfCut(bytes[1..], lead.count, lead.lo, lead.hi);
  }

  lemma {:induction false} TrailOfCut(bytes: seq<Byte>, want: nat, lo: Byte, hi: Byte)
    requires |bytes| < want && forall i | 0 <= i < |bytes| :: Fits(bytes[i], i, lo, hi)
    ensures Trail(bytes, want, lo, hi) == |bytes|
    decreases want
  {
    TrailBytes(bytes, want, lo, hi);
  }

  /** What is left is the longest run of whole characters from the front that fits the limit. */
  lemma {:induction false} TruncateKeepsLongestPrefix(text: string, limit: nat) returns (k: nat)
    ensures k <= |text| && |EncodeAll(text[..k])| <= limit
    ensures k < |text| ==> |EncodeAll(text[..k + 1])| > limit
    ensures TruncateBytes(text, limit) == (text[..k], k < |text|)
  {
    k := LongestPrefix(text, limit);
    assert text[..|text|] == text;
  }

  lemma {:induction false} LongestPrefix(text: string, limit: nat) returns (k: nat)
    ensures k <= |text| && |EncodeAll(text[..k])| <= limit
    ensures k < |text| ==> |EncodeAll(text[..k + 1])| > limit
    ensures |EncodeAll(text)| <= limit ==> k == |text|
    ensures |EncodeAll(text)| > limit ==> DecodeIgnoring(EncodeAll(text)[..limit]) == text[..k]
    decreases |text|
  {
    hide Step, Encode, DecodeIgnoring;
    k := 0;
    if text != [] {
      var first, rest := Encode(text[0]), EncodeAll(text[1..]);
      assert text[..1] == [text[0]] && text[..1][1..] == [];
      assert EncodeAll(text[..1]) == first + [];
      if |first| <= limit {
        var j := LongestPrefix(text[1..], limit - |first|);
        k := 1 + j;
        assert text[..k][1..] == text[1..][..j];
        assert j < |text| - 1 ==> text[..k + 1][1..] == text[1..][..j + 1];
        if |first + rest| > limit {
          assert (first + rest)[..limit] == first + rest[..limit - |first|];
          IgnoringStep(text[0], rest[..limit - |first|]);
        }
      } else {
        assert (first + rest)[..limit] == first[..limit];
        IgnoringCut(text[0], limit);
      }
    }
  }

  lemma IgnoringStep(c: char, more: seq<Byte>)
    ensures DecodeIgnoring(Encode(c) + more) == [c] + DecodeIgnoring(more)
  {
    hide Step, Encode;
    StepOfEncoded(c, more);
    assert (Encode(c) + more)[|Encode(c)|..] == more;
  }

  lemma IgnoringCut(c: char, n: nat)
    requires n < |Encode(c)|
    ensures DecodeIgnoring(Encode(c)[..n]) == []
  {
    if n > 0 {
      hide Step, Encode;
      StepOfCut(c, n);
      assert Encode(c)[..n][n..] == [];
    }
  }
}
