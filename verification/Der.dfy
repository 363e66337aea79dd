/** The hand-written ASN.1 encoder that turns a JSON Web Key into PEM (`packages/auth/src/index.ts`),
    and a DER reader that inverts it (ITU-T X.690; section 4.1 of RFC 5280; appendix A.1.1 of RFC 8017). */
module Der {
  import opened Text

  type Byte = b: int | 0 <= b < 256 witness 0
  type Bytes = seq<Byte>

  // ---------------------------------------------------------------- the encoder

  /** `derLength`: short form, one byte, or two bytes; longer lengths lose their high bits. */
  function DerLength(len: nat): Bytes {
    if len < 0x80 then [len]
    else if len < 0x100 then [0x81, len]
    else [0x82, (len / 256) % 256, len % 256]
  }

  function Tlv(tag: Byte, content: Bytes): Bytes {
    [tag] + DerLength(|content|) + content
  }

  function DerSequence(content: Bytes): Bytes { Tlv(0x30, content) }

  function DerInteger(data: Bytes): Bytes { Tlv(0x02, data) }

  function DerBitString(data: Bytes): Bytes { Tlv(0x03, [0x00] + data) }

  /** A zero byte keeps a number with its top bit set from reading as negative. */
  function Unsigned(n: Bytes): Bytes {
    if n != [] && n[0] >= 0x80 then [0x00] + n else n
  }

  const RSA_OID: Bytes := [0x30, 0x0d, 0x06, 0x09, 0x2a, 0x86, 0x48, 0x86, 0xf7, 0x0d, 0x01, 0x01, 0x01, 0x05, 0x00]

  function RsaKey(n: Bytes, e: Bytes): Bytes {
    DerSequence(DerInteger(Unsigned(n)) + DerInteger(Unsigned(e)))
  }

  function KeyInfoContent(n: Bytes, e: Bytes): Bytes {
    RSA_OID + DerBitString(RsaKey(n, e))
  }

  /** The bytes of `publicKeyInfo`. */
  function PublicKeyInfo(n: Bytes, e: Bytes): Bytes {
    DerSequence(KeyInfoContent(n, e))
  }

  // ---------------------------------------------------------------- a DER reader

  datatype Header = Header(tag: Byte, length: nat, size: nat)

  /** Tag and definite length, in the shortest form only (sections 8.1.3 and 10.1 of X.690). */
  function ReadHeader(b: Bytes): (h: Option<Header>)
    ensures h.Some? ==> 2 <= h.value.size <= |b|
  {
    if |b| < 2 then None
    else if b[1] < 0x80 then Some(Header(b[0], b[1], 2))
    else if b[1] == 0x81 then
      if |b| >= 3 && b[2] >= 0x80 then Some(Header(b[0], b[2], 3)) else None
    else if b[1] == 0x82 then
      if |b| >= 4 && b[2] != 0 then Some(Header(b[0], (b[2] as nat) * 256 + b[3], 4)) else None
    else None
  }

  /** One element with the given tag at the start of `b`: its content and what follows it. */
  function ReadTlv(b: Bytes, tag: Byte): Option<(Bytes, Bytes)> {
    match ReadHeader(b)
    case None => None
    case Some(h) =>
      if h.tag == tag && h.size + h.length <= |b|
      then Some((b[h.size..h.size + h.length], b[h.size + h.length..]))
      else None
  }

  /** Big-endian value. */
  function ValueOf(b: Bytes): nat {
    if b == [] then 0 else ValueOf(b[..|b| - 1]) * 256 + b[|b| - 1]
  }

  /** The content octets of an INTEGER as a two's complement number (section 8.3 of X.690). */
  function Signed(b: Bytes): int {
    if b != [] && b[0] >= 0x80 then ValueOf(b) - Power256(|b|) else ValueOf(b)
  }

  function Power256(k: nat): nat {
    if k == 0 then 1 else 256 * Power256(k - 1)
  }

  /** Reads SubjectPublicKeyInfo for RSA down to modulus and exponent; every level must be consumed. */
  function ReadPublicKey(b: Bytes): Option<(int, int)> {
    match ReadTlv(b, 0x30)
    case None => None
    case Some((info, after)) =>
      if after != [] || |info| < |RSA_OID| || info[..|RSA_OID|] != RSA_OID then None
      else
        match ReadTlv(info[|RSA_OID|..], 0x03)
        case None => None
        case Some((bits, afterBits)) =>
          if afterBits != [] || bits == [] || bits[0] != 0 then None else ReadRsaKey(bits[1..])
  }

  function ReadRsaKey(b: Bytes): Option<(int, int)> {
    match ReadTlv(b, 0x30)
    case None => None
    case Some((key, after)) =>
      if after != [] then None
      else
        match ReadTlv(key, 0x02)
        case None => None
        case Some((n, rest)) =>
          match ReadTlv(rest, 0x02)
          case None => None
          case Some((e, end)) =>
            if n == [] || e == [] || end != [] then None else Some((Signed(n), Signed(e)))
  }

  // ---------------------------------------------------------------- round trip

  /** Size of an element with `len` content bytes. */
  function ElementSize(len: nat): nat {
    len + if len < 0x80 then 2 else if len < 0x100 then 3 else 4
  }

  function IntegerSize(n: Bytes): nat {
    ElementSize(|n| + if n != [] && n[0] >= 0x80 then 1 else 0)
  }

  /** What a caller can compute from the key: does the outermost content fit a two-byte length? */
  predicate KeyFits(n: Bytes, e: Bytes) {
    15 + ElementSize(1 + ElementSize(IntegerSize(n) + IntegerSize(e))) < 65536
  }

  lemma SizeOfTlv(tag: Byte, content: Bytes)
    ensures |Tlv(tag, content)| == ElementSize(|content|)
  {}

  lemma KeyFitsIs(n: Bytes, e: Bytes)
    ensures KeyFits(n, e) <==> |KeyInfoContent(n, e)| < 65536
  {
    hide Tlv, ElementSize;
    SizeOfTlv(0x02, Unsigned(n));
    SizeOfTlv(0x02, Unsigned(e));
    SizeOfTlv(0x30, DerInteger(Unsigned(n)) + DerInteger(Unsigned(e)));
    SizeOfTlv(0x03, [0x00] + RsaKey(n, e));
  }

  /** The length field decodes to the length exactly below 65536; beyond, to its low sixteen bits. */
  lemma HeaderOfTlv(tag: Byte, content: Bytes, after: Bytes)
    ensures var b := Tlv(tag, content) + after;
            if |content| < 65536 then
              ReadHeader(b) == Some(Header(tag, |content|, |DerLength(|content|)| + 1))
            else
              ReadHeader(b) == None || (ReadHeader(b).Some? && ReadHeader(b).value.length == |content| % 65536)
  {}

  lemma LowBytes(len: nat)
    ensures (len / 256) % 256 * 256 + len % 256 == len % 65536
    ensures 256 <= len < 65536 ==> (len / 256) % 256 != 0
  {}

  /** An element is read back exactly when its content is shorter than 65536 bytes. */
  lemma TlvRoundTrip(tag: Byte, content: Bytes, after: Bytes)
    ensures ReadTlv(Tlv(tag, content) + after, tag) == Some((content, after)) <==> |content| < 65536
  {
    var b := Tlv(tag, content) + after;
    HeaderOfTlv(tag, content, after);
    if |content| < 65536 {
      var s := |DerLength(|content|)| + 1;
      assert b == ([tag] + DerLength(|content|)) + content + after;
      assert b[s..s + |content|] == content && b[s + |content|..] == after;
    } else if ReadTlv(b, tag).Some? {
      assert |ReadTlv(b, tag).value.0| == |content| % 65536 < |content|;
    }
  }

  lemma {:induction false} ValueOfConcat(a: Bytes, b: Bytes)
    ensures ValueOf(a + b) == ValueOf(a) * Power256(|b|) + ValueOf(b)
  {
    if b == [] {
      assert a + b == a;
    } else {
      var n := |b| - 1;
      assert (a + b)[..|a + b| - 1] == a + b[..n];
      ValueOfConcat(a, b[..n]);
      ShiftByte(ValueOf(a), Power256(n), ValueOf(b[..n]));
    }
  }

  lemma ShiftByte(a: nat, p: nat, b: nat)
    ensures (a * p + b) * 256 == a * (256 * p) + b * 256
  {}

  /** The sign byte makes every encoded number read back as the unsigned value of its bytes. */
  lemma SignedOfUnsigned(n: Bytes)
    ensures Signed(Unsigned(n)) == ValueOf(n)
  {
    if n != [] && n[0] >= 0x80 {
      ValueOfConcat([0x00], n);
      assert [0x00][..0] == [];
      assert ValueOf([0x00]) == 0;
    }
  }

  lemma RsaKeyRoundTrip(n: Bytes, e: Bytes)
    requires n != [] && e != []
    requires |DerInteger(Unsigned(n)) + DerInteger(Unsigned(e))| < 65536
    ensures ReadRsaKey(RsaKey(n, e)) == Some((ValueOf(n), ValueOf(e)))
  {
    hide DerLength, ReadTlv, ValueOf, Signed;
    var un, ue := Unsigned(n), Unsigned(e);
    var key := DerInteger(un) + DerInteger(ue);
    TlvRoundTrip(0x30, key, []);
    assert RsaKey(n, e) == RsaKey(n, e) + [];
    TlvRoundTrip(0x02, un, DerInteger(ue));
    TlvRoundTrip(0x02, ue, []);
    assert DerInteger(ue) == DerInteger(ue) + [];
    SignedOfUnsigned(n);
    SignedOfUnsigned(e);
  }

  /** For non-empty n and e, reading the encoded key gives back exactly their values, as non-negative
      integers and with every byte consumed, if and only if the outermost content stays below 65536
      bytes; all nested contents are then shorter still. */
  lemma KeyRoundTrip(n: Bytes, e: Bytes)
    requires n != [] && e != []
    ensures ReadPublicKey(PublicKeyInfo(n, e)) == Some((ValueOf(n), ValueOf(e))) <==> KeyFits(n, e)
    ensures !KeyFits(n, e) ==> ReadPublicKey(PublicKeyInfo(n, e)).None?
  {
    hide DerLength, ReadTlv, RsaKey, ReadRsaKey, ValueOf, KeyFits;
    KeyFitsIs(n, e);
    var info := KeyInfoContent(n, e);
    var key := RsaKey(n, e);
    TlvRoundTrip(0x30, info, []);
    assert PublicKeyInfo(n, e) == Tlv(0x30, info) + [];
    if |info| < 65536 {
      assert info[..|RSA_OID|] == RSA_OID && info[|RSA_OID|..] == DerBitString(key) + [];
      TlvRoundTrip(0x03, [0x00] + key, []);
      assert ([0x00] + key)[1..] == key;
      RsaKeySize(n, e);
      RsaKeyRoundTrip(n, e);
    } else {
      OuterContentIsConsumed(n, e);
    }
  }

  /** A modulus of 65536 bytes is encoded to something that cannot be read back. */
  lemma LongKeysAreLost(n: Bytes, e: Bytes)
    requires n == seq(65536, _ => 1) && e == [1, 0, 1]
    ensures ReadPublicKey(PublicKeyInfo(n, e)).None?
  {
    KeyRoundTrip(n, e);
  }

  lemma RsaKeySize(n: Bytes, e: Bytes)
    ensures |RsaKey(n, e)| > |DerInteger(Unsigned(n)) + DerInteger(Unsigned(e))|
  {}

  /** A successful read consumes the outermost content, which an overlong one cannot be. */
  lemma OuterContentIsConsumed(n: Bytes, e: Bytes)
    requires |KeyInfoContent(n, e)| >= 65536
    ensures ReadPublicKey(PublicKeyInfo(n, e)).None?
  {
    hide DerLength, RsaKey, ReadRsaKey, KeyInfoContent;
    var info := KeyInfoContent(n, e);
    var b := PublicKeyInfo(n, e);
    assert b == Tlv(0x30, info) + [];
    HeaderOfTlv(0x30, info, []);
    assert ReadTlv(b, 0x30).Some? ==> |ReadTlv(b, 0x30).value.0| < |info|;
  }

  // ---------------------------------------------------------------- canonical form

  /** Every length the encoder writes is in the shortest definite form. */
  lemma LengthsAreShortest(len: nat)
    requires len < 65536
    ensures var l := DerLength(len);
            && (l[0] < 0x80 ==> |l| == 1 && l[0] == len)
            && (l[0] >= 0x80 ==> l[0] == 0x80 + |l| - 1 && l[1] != 0 && ValueOf(l[1..]) == len && len >= 0x80
                                 && (|l| == 3 ==> len >= 0x100))
  {
    var l := DerLength(len);
    if len >= 0x100 {
      LowBytes(len);
      assert l[1..] == [l[1], l[2]];
      assert [l[1], l[2]][..1] == [l[1]] && [l[1]][..0] == [];
      assert ValueOf([l[1]]) == l[1];
    } else if len >= 0x80 {
      assert l[1..] == [len] && [len][..0] == [];
    }
  }

  /** The first nine bits of an INTEGER must not agree (section 8.3.2 of X.690). */
  predicate MinimalInteger(b: Bytes) {
    b != [] && (|b| > 1 ==> !(b[0] == 0 && b[1] < 0x80) && !(b[0] == 0xff && b[1] >= 0x80))
  }

  /** The integers are minimal exactly when the key's own bytes carry no superfluous leading zero:
      the encoder passes such zeros through. */
  lemma IntegersAreMinimalUnlessPadded(n: Bytes)
    requires n != []
    ensures MinimalInteger(Unsigned(n)) <==> !(|n| > 1 && n[0] == 0 && n[1] < 0x80)
  {}

  /** A padded exponent keeps its padding. */
  lemma PaddingIsKept()
    ensures Unsigned([0, 1]) == [0, 1] && !MinimalInteger(Unsigned([0, 1]))
  {}

  // ---------------------------------------------------------------- algorithm identifier

  /** Base-128 arcs of an OBJECT IDENTIFIER after its first octet (section 8.19 of X.690). */
  function Arcs(b: Bytes, acc: nat): Option<seq<nat>> {
    if b == [] then if acc == 0 then Some([]) else None
    else if acc == 0 && b[0] == 0x80 then None
    else if b[0] >= 0x80 then Arcs(b[1..], acc * 128 + b[0] - 0x80)
    else match Arcs(b[1..], 0)
         case None => None
         case Some(rest) => Some([acc * 128 + b[0]] + rest)
  }

  function ObjectIdentifier(b: Bytes): Option<seq<nat>> {
    if b == [] then None
    else match Arcs(b[1..], 0)
         case None => None
         case Some(rest) => Some([b[0] / 40, b[0] % 40] + rest)
  }

  /** The arcs after the first octet of rsaEncryption. */
  const RSA_ARCS: Bytes := [0x86, 0x48, 0x86, 0xf7, 0x0d, 0x01, 0x01, 0x01]

  /** The fixed bytes are SEQUENCE { OBJECT IDENTIFIER 1.2.840.113549.1.1.1, NULL }. */
  lemma AlgorithmIsRsaEncryption()
    ensures var oid := [0x2a] + RSA_ARCS;
            && ReadTlv(RSA_OID, 0x30) == Some((Tlv(0x06, oid) + Tlv(0x05, []), []))
            && ReadTlv(Tlv(0x06, oid) + Tlv(0x05, []), 0x06) == Some((oid, Tlv(0x05, [])))
            && ReadTlv(Tlv(0x05, []), 0x05) == Some(([], []))
            && ObjectIdentifier(oid) == Some([1, 2, 840, 113549, 1, 1, 1])
  {
    hide ReadTlv, Arcs;
    var oid := [0x2a] + RSA_ARCS;
    var content := Tlv(0x06, oid) + Tlv(0x05, []);
    assert RSA_OID == Tlv(0x30, content) + [];
    TlvRoundTrip(0x30, content, []);
    TlvRoundTrip(0x06, oid, Tlv(0x05, []));
    TlvRoundTrip(0x05, [], []);
    assert Tlv(0x05, []) == Tlv(0x05, []) + [];
    ArcsOfRsa();
    assert oid[1..] == RSA_ARCS && oid[0] / 40 == 1 && oid[0] % 40 == 2;
    assert [1, 2] + [840, 113549, 1, 1, 1] == [1, 2, 840, 113549, 1, 1, 1];
  }

  lemma LastByteOfArc(b: Byte, rest: Bytes, acc: nat)
    requires b < 0x80 && Arcs(rest, 0).Some?
    ensures Arcs([b] + rest, acc) == Some([acc * 128 + b] + Arcs(rest, 0).value)
  {}

  lemma MoreOfArc(b: Byte, rest: Bytes, acc: nat)
    requires b > 0x80
    ensures Arcs([b] + rest, acc) == Arcs(rest, acc * 128 + b - 0x80)
  {}

  lemma ArcsOfRsa()
    ensures Arcs(RSA_ARCS, 0) == Some([840, 113549, 1, 1, 1])
  {
    hide Arcs;
    ArcsOfNothing();
    var b := RSA_ARCS;
    assert b[8..] == [] && forall i :: 0 <= i < 8 ==> b[i..] == [b[i]] + b[i + 1..];
    LastByteOfArc(b[7], b[8..], 0);
    assert Arcs(b[7..], 0) == Some([1]);
    LastByteOfArc(b[6], b[7..], 0);
    assert Arcs(b[6..], 0) == Some([1, 1]);
    LastByteOfArc(b[5], b[6..], 0);
    assert Arcs(b[5..], 0) == Some([1, 1, 1]);
    LastByteOfArc(b[4], b[5..], 887);
    assert [887 * 128 + 13] + [1, 1, 1] == [113549, 1, 1, 1];
    assert Arcs(b[4..], 887) == Some([113549, 1, 1, 1]);
    MoreOfArc(b[3], b[4..], 6);
    MoreOfArc(b[2], b[3..], 0);
    assert Arcs(b[2..], 0) == Arcs(b[4..], 887);
    LastByteOfArc(b[1], b[2..], 6);
    assert [6 * 128 + 72] + [113549, 1, 1, 1] == [840, 113549, 1, 1, 1];
    assert Arcs(b[1..], 6) == Some([840, 113549, 1, 1, 1]);
    MoreOfArc(b[0], b[1..], 0);
    assert b[0..] == b;
  }

  lemma ArcsOfNothing()
    ensures Arcs([], 0) == Some([])
  {}

  // ---------------------------------------------------------------- PEM body

  /** `text.replace(/(.{64})/g, '$1\n')`: a line feed after every 64 characters. */
  function Wrap(text: string): string {
    if |text| < 64 then text else text[..64] + "\n" + Wrap(text[64..])
  }

  /** The body has a line feed after every 64 characters, and nowhere else. */
  lemma {:induction false} WrapBreaksEvery64(text: string)
    requires '\n' !in text
    ensures |Wrap(text)| == |text| + |text| / 64
    ensures forall i :: 0 <= i < |Wrap(text)| ==> (Wrap(text)[i] == '\n' <==> i % 65 == 64)
  {
    if |text| >= 64 {
      var rest := Wrap(text[64..]);
      WrapBreaksEvery64(text[64..]);
      assert Wrap(text) == text[..64] + "\n" + rest;
      forall i | 65 <= i < |Wrap(text)| ensures Wrap(text)[i] == '\n' <==> i % 65 == 64 {
        assert Wrap(text)[i] == rest[i - 65] && i % 65 == (i - 65) % 65;
      }
      forall i | 0 <= i < 64 ensures Wrap(text)[i] != '\n' { assert Wrap(text)[i] == text[i]; }
    } else {
      forall i | 0 <= i < |text| ensures text[i] != '\n' && i % 65 != 64 { assert text[i] in text; }
    }
  }

  function WithoutLineFeeds(s: string): string {
    if s == "" then ""
    else (if s[0] == '\n' then "" else [s[0]]) + WithoutLineFeeds(s[1..])
  }

  lemma {:induction false} WithoutLineFeedsConcat(a: string, b: string)
    ensures WithoutLineFeeds(a + b) == WithoutLineFeeds(a) + WithoutLineFeeds(b)
  {
    if a == "" {
      assert a + b == b;
    } else {
      assert (a + b)[1..] == a[1..] + b;
      WithoutLineFeedsConcat(a[1..], b);
    }
  }

  lemma {:induction false} WithoutLineFeedsSame(s: string)
    requires '\n' !in s
    ensures WithoutLineFeeds(s) == s
  {
    if s != "" {
      assert s[0] in s;
      WithoutLineFeedsSame(s[1..]);
    }
  }

  /** Deleting the line breaks of the PEM body gives back the base64 text. */
  lemma {:induction false} WrapLosesNothing(text: string)
    requires '\n' !in text
    ensures WithoutLineFeeds(Wrap(text)) == text
  {
    if |text| < 64 {
      WithoutLineFeedsSame(text);
    } else {
      var head := text[..64];
      WithoutLineFeedsSame(head);
      WrapLosesNothing(text[64..]);
      WithoutLineFeedsConcat(head + "\n", Wrap(text[64..]));
      WithoutLineFeedsConcat(head, "\n");
      assert WithoutLineFeeds("\n") == "" + WithoutLineFeeds("");
    }
  }

  /** `pem`: the encoder's text for the base64 of the key. */
  function Pem(base64: Bytes -> string, n: Bytes, e: Bytes): string {
    "-----BEGIN PUBLIC KEY-----\n" + Wrap(base64(PublicKeyInfo(n, e))) + "\n-----END PUBLIC KEY-----"
  }

  /** The body ends in a line feed of its own, and so a blank line before the footer, exactly when the
      base64 text fills its last line. */
  lemma {:induction false} WrapEndsInBreak(text: string)
    requires '\n' !in text
    ensures (Wrap(text) != "" && Wrap(text)[|Wrap(text)| - 1] == '\n') <==> |text| > 0 && |text| % 64 == 0
  {
    if 0 < |text| < 64 {
      assert text[|text| - 1] in text;
    } else if |text| >= 64 {
      WrapEndsInBreak(text[64..]);
    }
  }

  /** A modulus of 19 bytes fills one line of base64: its PEM text has a blank line before the footer. */
  lemma FullLineIsFollowedByBlank(base64: Bytes -> string, n: Bytes, e: Bytes)
    requires n == seq(19, _ => 1) && e == [1, 0, 1]
    requires forall b :: |base64(b)| == (|b| + 2) / 3 * 4
    ensures Pem(base64, n, e) == "-----BEGIN PUBLIC KEY-----\n" + base64(PublicKeyInfo(n, e)) +
                                 "\n\n-----END PUBLIC KEY-----"
  {
    hide PublicKeyInfo, KeyInfoContent;
    SizeOfSmallKey(n, e);
    var text := base64(PublicKeyInfo(n, e));
    assert text[..64] == text && text[64..] == "";
    assert Wrap(text) == text + "\n";
    assert "\n" + "\n-----END PUBLIC KEY-----" == "\n\n-----END PUBLIC KEY-----";
  }

  lemma SizeOfSmallKey(n: Bytes, e: Bytes)
    requires n == seq(19, _ => 1) && e == [1, 0, 1]
    ensures |PublicKeyInfo(n, e)| == 48
  {
    hide Tlv;
    SizeOfTlv(0x02, Unsigned(n));
    SizeOfTlv(0x02, Unsigned(e));
    SizeOfTlv(0x30, DerInteger(Unsigned(n)) + DerInteger(Unsigned(e)));
    SizeOfTlv(0x03, [0x00] + RsaKey(n, e));
    SizeOfTlv(0x30, KeyInfoContent(n, e));
  }

  /** A PEM reader with any base64 decoder that inverts the encoder recovers the key. */
  function ReadPem(decode: string -> Bytes, pem: string): Option<(int, int)> {
    var head, foot := "-----BEGIN PUBLIC KEY-----\n", "\n-----END PUBLIC KEY-----";
    if |head| + |foot| <= |pem| && pem[..|head|] == head && pem[|pem| - |foot|..] == foot
    then ReadPublicKey(decode(WithoutLineFeeds(pem[|head|..|pem| - |foot|])))
    else None
  }

  lemma PemRoundTrip(base64: Bytes -> string, decode: string -> Bytes, n: Bytes, e: Bytes)
    requires n != [] && e != [] && KeyFits(n, e)
    requires '\n' !in base64(PublicKeyInfo(n, e)) && decode(base64(PublicKeyInfo(n, e))) == PublicKeyInfo(n, e)
    ensures ReadPem(decode, Pem(base64, n, e)) == Some((ValueOf(n), ValueOf(e)))
  {
    hide PublicKeyInfo, Wrap, WithoutLineFeeds, ReadPublicKey, KeyInfoContent, ValueOf;
    var text := base64(PublicKeyInfo(n, e));
    var head, foot := "-----BEGIN PUBLIC KEY-----\n", "\n-----END PUBLIC KEY-----";
    var pem := Pem(base64, n, e);
    assert pem[|head|..|pem| - |foot|] == Wrap(text);
    WrapLosesNothing(text);
    KeyRoundTrip(n, e);
  }
}
