/**
 One-time passwords (app/core/security.py:268-292): dynamic truncation after section 5.3 of
 RFC 4226 and the acceptance window of section 5.2 of RFC 6238. The MAC is a parameter.
 */
module Otp {
  import opened Wrappers
  import opened Decimal
  import opened Text

  type Byte = b: int | 0 <= b < 256

  const DIGEST_SIZE := 20
  const COUNTER_LIMIT := 0x1_0000_0000_0000_0000

  type Digest = d: seq<Byte> | |d| == DIGEST_SIZE witness seq(20, i => 0)

  function Offset(d: Digest): (o: nat)
    ensures o + 4 <= DIGEST_SIZE
  {
    d[DIGEST_SIZE - 1] % 0x10
  }

  /** The masked and shifted bytes of the source; shifting apart makes each | a sum. */
  function Truncated(d: Digest): (n: nat)
    ensures n < 0x8000_0000
  {
    var o := Offset(d);
    var a: int, b: int, c: int, e: int := d[o], d[o + 1], d[o + 2], d[o + 3];
    a % 0x80 * 0x100_0000 + b * 0x1_0000 + c * 0x100 + e
  }

  function HotpText(d: Digest, digits: nat): string {
    Padded(Truncated(d) % Pow10(digits), digits)
  }

  function BigEndian(w: seq<Byte>): nat {
    if w == [] then 0 else 256 * BigEndian(w[..|w| - 1]) + w[|w| - 1]
  }

  /** The number truncated out of a digest is the low 31 bits of the word at the dynamic offset. */
  lemma TruncationIsWord(d: Digest)
    ensures var o := d[19] % 16;
            o + 4 <= 20 && Truncated(d) == BigEndian(d[o..o + 4]) % 0x8000_0000
  {
    var o := Offset(d);
    var w := d[o..o + 4];
    var a: int, b: int, c: int, e: int := d[o], d[o + 1], d[o + 2], d[o + 3];
    assert w[0] == d[o] && w[1] == d[o + 1] && w[2] == d[o + 2] && w[3] == d[o + 3];
    assert w[..4] == w && w[..3][..2] == w[..2] && w[..2][..1] == w[..1] && w[..1][..0] == [];
    assert BigEndian(w[..1]) == a;
    assert BigEndian(w[..2]) == a * 256 + b;
    assert BigEndian(w[..3]) == (a * 256 + b) * 256 + c;
    assert BigEndian(w) == ((a * 256 + b) * 256 + c) * 256 + e;
    assert BigEndian(w) == Truncated(d) + a / 0x80 * 0x8000_0000;
  }

  /** Section 5.3 of RFC 4226: `digits` decimal digits that spell the word modulo 10^digits. */
  lemma HotpIsRfc4226(d: Digest, digits: nat)
    requires digits >= 1
    ensures |HotpText(d, digits)| == digits && AllDigits(HotpText(d, digits))
    ensures var o := d[19] % 16;
            o + 4 <= 20 && ValueOf(HotpText(d, digits)) == BigEndian(d[o..o + 4]) % 0x8000_0000 % Pow10(digits)
  {
    TruncationIsWord(d);
    PaddedReads(Truncated(d) % Pow10(digits), digits);
  }

  /** _hotp for one shared secret: no text for a secret that is not Base32 or a counter outside 64 bits. */
  function HotpAt(mac: nat -> Digest, secretOk: bool, counter: int): Option<string> {
    if secretOk && 0 <= counter < COUNTER_LIMIT then Some(HotpText(mac(counter), 6)) else None
  }

  /** The code is the password of some counter in the window. */
  predicate InWindow(mac: nat -> Digest, code: string, from: int, to: int) {
    exists c: nat :: from <= c <= to && c < COUNTER_LIMIT && HotpText(mac(c), 6) == code
  }

  /** What verify_totp answers at step `cur`. */
  predicate Accepts(mac: nat -> Digest, secretOk: bool, secret: string, code: string, cur: int, drift: nat) {
    secret != [] && code != [] && secretOk && cur >= drift && InWindow(mac, Strip(code), cur - drift, cur + drift)
  }

  /** No counter from `from` on and below `to` has the code, and all of them have passwords. */
  ghost predicate NotAmong(mac: nat -> Digest, code: string, from: int, to: int) {
    forall c: nat :: from <= c < to ==> c < COUNTER_LIMIT && HotpText(mac(c), 6) != code
  }

  lemma WindowStep(mac: nat -> Digest, secretOk: bool, code: string, cur: int, drift: nat, off: int)
    requires 0 - drift <= off <= drift && NotAmong(mac, code, cur - drift, cur + off)
    requires off > 0 - drift ==> secretOk && cur >= drift
    ensures match HotpAt(mac, secretOk, cur + off)
            case None => !(secretOk && cur >= drift && InWindow(mac, code, cur - drift, cur + drift))
            case Some(text) =>
              && secretOk && cur >= drift
              && if text == code then InWindow(mac, code, cur - drift, cur + drift)
                 else NotAmong(mac, code, cur - drift, cur + off + 1)
  {
    hide HotpText;
  }

  lemma WholeWindow(mac: nat -> Digest, code: string, from: int, to: int)
    requires NotAmong(mac, code, from, to + 1)
    ensures !InWindow(mac, code, from, to)
  {
    hide HotpText;
  }

  /**
   verify_totp at step `cur`. An exception answers False, and the loop starts at the smallest
   counter: before step `drift` it fails on a negative counter and rejects every code.
   */
  method VerifyTotp(mac: nat -> Digest, secretOk: bool, secret: string, code: string, cur: int, drift: nat)
    returns (ok: bool)
    ensures ok <==> Accepts(mac, secretOk, secret, code, cur, drift)
  {
    assert NotAmong(mac, Strip(code), cur - drift, cur - drift);
    hide HotpText, Strip, InWindow, NotAmong;
    if secret == [] || code == [] {
      return false;
    }
    var first: int := 0 - drift;
    for off := first to drift + 1
      invariant off > first ==> secretOk && cur >= drift
      invariant NotAmong(mac, Strip(code), cur - drift, cur + off)
    {
      var text := HotpAt(mac, secretOk, cur + off);
      WindowStep(mac, secretOk, Strip(code), cur, drift, off);
      if text.None? {
        return false;
      }
      if text.value == Strip(code) {
        return true;
      }
    }
    WholeWindow(mac, Strip(code), cur - drift, cur + drift);
    return false;
  }

  function Step(time: int, period: int): int
    requires period > 0
  {
    time / period
  }

  lemma DigitsAreStripped(s: string)
    requires AllDigits(s)
    ensures Strip(s) == s
  {
    if s != [] {
      assert !IsSpace(s[0]) && !IsSpace(s[|s| - 1]);
      assert LStrip(s) == s;
    }
  }

  /**
   A password shown at one moment is accepted for `drift` whole periods before and after it,
   except in the first `drift` periods of the clock, where no password is.
   */
  lemma ShownCodeIsAccepted(mac: nat -> Digest, secret: string, shown: nat, checked: nat, period: int, drift: nat)
    requires secret != [] && period > 0 && shown / period < COUNTER_LIMIT
    requires shown - drift * period <= checked <= shown + drift * period
    ensures Accepts(mac, true, secret, HotpText(mac(shown / period), 6), Step(checked, period), drift)
            <==> Step(checked, period) >= drift
  {
    var c: nat := shown / period;
    var code := HotpText(mac(c), 6);
    assert code != [] && AllDigits(code);
    hide HotpText;
    DigitsAreStripped(code);
    StepsApart(shown, checked, period, drift);
    assert Step(checked, period) - drift <= c <= Step(checked, period) + drift && HotpText(mac(c), 6) == code;
  }

  lemma StepsApart(a: nat, b: nat, period: int, drift: nat)
    requires period > 0 && a - drift * period <= b <= a + drift * period
    ensures b / period - drift <= a / period <= b / period + drift
  {
    var x, y := a / period, b / period;
    if x > y + drift {
      Scale(y + drift + 1, x, period);
    } else if y > x + drift {
      Scale(x + drift + 1, y, period);
    }
  }

  lemma Scale(x: int, y: int, p: int)
    requires x <= y && p > 0
    ensures x * p <= y * p
  {
  }
}
