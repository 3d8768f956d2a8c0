/** Message ids: a prefix of the session's uuid followed by a 32-bit counter in eight hex digits. */
module MessageIds {
  import opened Pdu

  const DIGITS := 8

  function HexDigit(d: nat): byte
    requires d < 16
  {
    if d < 10 then 48 + d else 87 + d
  }

  function DigitValue(b: byte): int {
    if b < 58 then b - 48 else b - 87
  }

  /** `n` in `width` lower-case hex digits, padded with zeros. */
  function Hex(n: nat, width: nat): (s: Bytes)
    ensures |s| == width && NulFree(s)
  {
    if width == 0 then [] else Hex(n / 16, width - 1) + [HexDigit(n % 16)]
  }

  function Unhex(s: Bytes): int {
    if s == [] then 0 else Unhex(s[..|s| - 1]) * 16 + DigitValue(s[|s| - 1])
  }

  function Pow16(w: nat): nat {
    if w == 0 then 1 else 16 * Pow16(w - 1)
  }

  /** Printing is invertible on everything that fits the width. */
  lemma {:induction false} UnhexHex(n: nat, width: nat)
    requires n < Pow16(width)
    ensures Unhex(Hex(n, width)) == n
  {
    if width != 0 {
      UnhexHex(n / 16, width - 1);
      var s := Hex(n, width);
      assert s[..|s| - 1] == Hex(n / 16, width - 1);
      assert DigitValue(HexDigit(n % 16)) == n % 16;
    }
  }

  lemma Pow16Of8()
    ensures Pow16(DIGITS) == 0x1_0000_0000
  {
    assert Pow16(8) == 16 * Pow16(7) && Pow16(7) == 16 * Pow16(6) && Pow16(6) == 16 * Pow16(5);
    assert Pow16(5) == 16 * Pow16(4) && Pow16(4) == 16 * Pow16(3) && Pow16(3) == 0x1000;
  }

  /** The first eight characters of the uuid, or all of it when it is shorter. */
  function Prefix(uuid: Bytes): Bytes {
    if |uuid| >= 8 then uuid[..8] else uuid
  }

  function MessageId(uuid: Bytes, n: u32): (id: Bytes)
    ensures id != [] && |id| <= 16
  {
    Prefix(uuid) + Hex(n, DIGITS)
  }

  lemma MessageIdInjective(uuid: Bytes, m: u32, n: u32)
    requires MessageId(uuid, m) == MessageId(uuid, n)
    ensures m == n
  {
    var k := |Prefix(uuid)|;
    assert MessageId(uuid, m)[k..] == Hex(m, DIGITS) && MessageId(uuid, n)[k..] == Hex(n, DIGITS);
    Pow16Of8();
    UnhexHex(m, DIGITS);
    UnhexHex(n, DIGITS);
  }

  /** The id of a session's k-th accepted message, counting from 0; the counter is 32-bit. */
  function NthId(uuid: Bytes, k: nat): Bytes {
    MessageId(uuid, (k + 1) % 0x1_0000_0000)
  }

  lemma ModNext(k: nat)
    ensures (k + 1) % 0x1_0000_0000
            == if k % 0x1_0000_0000 == 0xFFFF_FFFF then 0 else k % 0x1_0000_0000 + 1
  {
  }

  lemma {:induction false} HexDigits(n: nat, width: nat)
    ensures forall k | 0 <= k < width ::
              exists d | 0 <= d < 16 :: Hex(n, width)[k] as int == "0123456789abcdef"[d] as int
  {
    if width != 0 {
      HexDigits(n / 16, width - 1);
      var d := n % 16;
      assert HexDigit(d) as int == "0123456789abcdef"[d] as int;
    }
  }

  /** What an id looks like: the first eight characters of the uuid, or all of it when it is shorter, and eight
      lower-case hex digits whose value is the number of the message, counting from 1, modulo 2^32. */
  lemma IdText(uuid: Bytes, k: nat)
    ensures var m := if |uuid| < 8 then |uuid| else 8;
            var id := NthId(uuid, k);
            && |id| == m + 8 && id[..m] == uuid[..m]
            && Unhex(id[m..]) == (k + 1) % 0x1_0000_0000
            && forall j | m <= j < |id| :: exists d | 0 <= d < 16 :: id[j] as int == "0123456789abcdef"[d] as int
  {
    var m := if |uuid| < 8 then |uuid| else 8;
    var n := (k + 1) % 0x1_0000_0000;
    var id := NthId(uuid, k);
    Pow16Of8();
    UnhexHex(n, DIGITS);
    HexDigits(n, DIGITS);
    assert id[m..] == Hex(n, DIGITS);
    forall j | m <= j < |id| ensures exists d | 0 <= d < 16 :: id[j] as int == "0123456789abcdef"[d] as int {
      assert id[j] == Hex(n, DIGITS)[j - m];
    }
  }

  /** Two of a session's message ids are equal exactly when their numbers differ by a multiple of 2^32; the first
      2^32 are therefore pairwise distinct. */
  lemma IdsDistinct(uuid: Bytes, j: nat, k: nat)
    ensures NthId(uuid, j) == NthId(uuid, k) <==> j % 0x1_0000_0000 == k % 0x1_0000_0000
  {
    hide MessageId;
    ModNext(j);
    ModNext(k);
    if NthId(uuid, j) == NthId(uuid, k) {
      MessageIdInjective(uuid, (j + 1) % 0x1_0000_0000, (k + 1) % 0x1_0000_0000);
    }
  }

  /** An id printed into a SUBMIT_SM_RESP body is read back whole. */
  lemma IdReadBack(uuid: Bytes, n: u32, sequence: u32)
    requires NulFree(uuid)
    ensures TakeCstr(Response(SUBMIT_SM_RESP, ESME_ROK, sequence, MessageId(uuid, n)).body)
            == (MessageId(uuid, n), [])
  {
    var id := MessageId(uuid, n);
    TakeTerminated(id, []);
    assert id + [0] + [] == id + [0];
  }
}
