/** Licence keys (control-api/app/licensing.py): minted and validated offline. A key is the Base 32 text
    of an 8-byte payload and a 12-byte signature; dates are day counts from 1 January 2020, and the keyed
    hash is any function from payloads to signatures. */
module Licensing {
  import opened Base32
  import opened Common
  import opened Text

  type Signature = s: seq<Byte> | |s| == 12 witness [0, 0, 0, 0, 0, 0, 0, 0, 0, 0, 0, 0]

  type Mac = seq<Byte> -> Signature

  const Version: Byte := 1
  const TrialDays := 30

  // ------------------------------------------------------------------ editions

  function EditionId(name: string): Option<Byte> {
    if name == "trial" then Some(0)
    else if name == "standard" then Some(1)
    else if name == "enterprise" then Some(2)
    else None
  }

  function EditionName(id: Byte): string {
    if id == 0 then "trial" else if id == 1 then "standard" else if id == 2 then "enterprise" else "unknown"
  }

  lemma {:induction false} EditionNames(name: string, id: Byte)
    ensures EditionId(name) == Some(id) <==> EditionName(id) == name && name != "unknown"
  {
    assert "trial"[0] == 't' && "standard"[0] == 's' && "enterprise"[0] == 'e' && "unknown"[0] == 'u';
  }

  // ------------------------------------------------------------------ the payload

  /** The fields of a payload, in the order they are packed. */
  datatype Payload = Payload(version: Byte, edition: Byte, issued: int, expiry: int, flags: int)

  predicate Fits(n: int) {
    0 <= n < 0x1_0000
  }

  predicate Packable(p: Payload) {
    Fits(p.issued) && Fits(p.expiry) && Fits(p.flags)
  }

  function Word(n: int): (w: seq<Byte>)
    requires Fits(n)
    ensures |w| == 2
  {
    [n / 256, n % 256]
  }

  function FromWord(high: int, low: int): int {
    high * 256 + low
  }

  /** Two single bytes and three big-endian 16-bit words. */
  function Pack(p: Payload): (b: seq<Byte>)
    requires Packable(p)
    ensures |b| == 8
  {
    [p.version, p.edition] + Word(p.issued) + Word(p.expiry) + Word(p.flags)
  }

  function Unpack(b: seq<Byte>): (p: Payload)
    requires |b| == 8
    ensures Packable(p)
  {
    Payload(b[0], b[1], FromWord(b[2], b[3]), FromWord(b[4], b[5]), FromWord(b[6], b[7]))
  }

  lemma {:induction false} UnpackPack(p: Payload)
    requires Packable(p)
    ensures Unpack(Pack(p)) == p
  {
  }

  lemma {:induction false} WordBack(high: Byte, low: Byte)
    ensures Word(FromWord(high, low)) == [high, low]
  {
  }

  lemma {:induction false} PackUnpack(b: seq<Byte>)
    requires |b| == 8
    ensures Pack(Unpack(b)) == b
  {
    hide Word, FromWord;
    WordBack(b[2], b[3]);
    WordBack(b[4], b[5]);
    WordBack(b[6], b[7]);
  }

  // ------------------------------------------------------------------ minting

  datatype Minted = Key(key: string) | UnknownEdition | OutOfRange

  function KeyOf(mac: Mac, p: Payload): (key: string)
    requires Packable(p)
    ensures |key| == 32
  {
    Encode(Pack(p) + mac(Pack(p)))
  }

  function Mint(mac: Mac, edition: string, validDays: int, issued: int, flags: int): Minted {
    match EditionId(edition)
    case None => UnknownEdition
    case Some(id) =>
      var p := Payload(Version, id, issued, issued + validDays, flags);
      if Packable(p) then Key(KeyOf(mac, p)) else OutOfRange
  }

  function MintTrial(mac: Mac, issued: int): Minted {
    Mint(mac, "trial", TrialDays, issued, 0)
  }

  // ------------------------------------------------------------------ validating

  predicate Separator(c: char) {
    c == '-' || c == ' '
  }

  function Remove(s: string): string {
    if s == [] then [] else (if Separator(s[0]) then [] else [s[0]]) + Remove(s[1..])
  }

  function Normalise(key: string): string {
    UpperAll(Remove(Strip(key)))
  }

  datatype Reason =
    | Good
    | NoKey
    | NotThirtyTwo
    | NotBase32
    | WrongLength
    | BadSignature
    | UnsupportedVersion(version: Byte)
    | Expired(on: int)

  datatype Info = Info(valid: bool, reason: Reason, edition: string,
                       issued: Option<int>, expiry: Option<int>, daysRemaining: int)

  function Rejected(reason: Reason): Info {
    Info(false, reason, "", None, None, 0)
  }

  function Validate(mac: Mac, key: string, today: int): Info {
    if key == [] then Rejected(NoKey)
    else if |Normalise(key)| != 32 then Rejected(NotThirtyTwo)
    else
      match Decode(Normalise(key))
      case None => Rejected(NotBase32)
      case Some(raw) =>
        if |raw| != 20 then Rejected(WrongLength)
        else if mac(raw[..8]) != raw[8..] then Rejected(BadSignature)
        else Dated(Unpack(raw[..8]), today)
  }

  /** The checks on an authentic payload. */
  function Dated(p: Payload, today: int): Info {
    if p.version != Version then Rejected(UnsupportedVersion(p.version))
    else
      var remaining := p.expiry - today;
      Info(remaining >= 0, if remaining < 0 then Expired(p.expiry) else Good, EditionName(p.edition),
           Some(p.issued), Some(p.expiry), remaining)
  }

  // ------------------------------------------------------------------ ways to write a key

  /** `f` writes `key` with letters in either case and with dashes and spaces anywhere. */
  predicate Writes(f: string, key: string) {
    if f == [] then key == []
    else if f[0] == '-' || f[0] == ' ' then Writes(f[1..], key)
    else key != [] && Upper(f[0]) == key[0] && Writes(f[1..], key[1..])
  }

  /** The only white space is the space character. */
  predicate PlainSpaces(s: string) {
    forall k :: 0 <= k < |s| && IsSpace(s[k]) ==> s[k] == ' '
  }

  lemma {:induction false} RemoveSnoc(s: string, c: char)
    ensures Remove(s + [c]) == Remove(s) + if Separator(c) then [] else [c]
  {
    hide Separator;
    if s == [] {
      RemoveFront(c, []);
      assert [] + [c] == [c] + [];
    } else {
      hide Remove;
      var rest := s[1..];
      RemoveFront(s[0], rest);
      RemoveFront(s[0], rest + [c]);
      RemoveSnoc(rest, c);
      assert s == [s[0]] + rest && s + [c] == [s[0]] + (rest + [c]);
    }
  }

  lemma {:induction false} RemoveFront(c: char, rest: string)
    ensures Remove([c] + rest) == (if Separator(c) then [] else [c]) + Remove(rest)
  {
    assert ([c] + rest)[1..] == rest;
  }

  lemma {:induction false} StripLeftKeeps(s: string)
    requires PlainSpaces(s)
    ensures Remove(StripLeft(s)) == Remove(s) && PlainSpaces(StripLeft(s))
  {
    if s != [] && IsSpace(s[0]) {
      StripLeftKeeps(s[1..]);
    }
  }

  lemma {:induction false} StripRightKeeps(s: string)
    requires PlainSpaces(s)
    ensures Remove(StripRight(s)) == Remove(s)
  {
    if s != [] && IsSpace(s[|s| - 1]) {
      StripRightKeeps(s[..|s| - 1]);
      RemoveSnoc(s[..|s| - 1], s[|s| - 1]);
      assert s == s[..|s| - 1] + [s[|s| - 1]];
    }
  }

  lemma {:induction false} WrittenReads(f: string, key: string)
    requires Writes(f, key)
    ensures UpperAll(Remove(f)) == key && |f| >= |key|
  {
    if f != [] {
      if Separator(f[0]) {
        WrittenReads(f[1..], key);
        assert [] + Remove(f[1..]) == Remove(f[1..]);
      } else {
        WrittenReads(f[1..], key[1..]);
        assert UpperAll([f[0]] + Remove(f[1..])) == [key[0]] + UpperAll(Remove(f[1..]));
      }
    }
  }

  lemma {:induction false} WrittenIsPlain(f: string, key: string)
    requires Writes(f, key) && AllInAlphabet(key)
    ensures PlainSpaces(f)
  {
    if f != [] {
      if !Separator(f[0]) {
        assert ValueOf(key[0]).Some?;
        forall k | 0 <= k < |key[1..]|
          ensures ValueOf(key[1..][k]).Some?
        {
          assert ValueOf(key[k + 1]).Some?;
        }
        SpaceIsNoLetter(f[0]);
        WrittenIsPlain(f[1..], key[1..]);
      } else {
        WrittenIsPlain(f[1..], key);
      }
      assert forall k :: 1 <= k < |f| ==> f[k] == f[1..][k - 1];
    }
  }

  lemma {:induction false} SpaceIsNoLetter(c: char)
    requires ValueOf(Upper(c)).Some?
    ensures !IsSpace(c)
  {
  }

  lemma {:induction false} WritesItself(key: string)
    requires AllInAlphabet(key)
    ensures Writes(key, key)
  {
    if key != [] {
      assert ValueOf(key[0]).Some?;
      forall k | 0 <= k < |key[1..]|
        ensures ValueOf(key[1..][k]).Some?
      {
        assert ValueOf(key[k + 1]).Some?;
      }
      WritesItself(key[1..]);
    }
  }

  /** However a key is written, it is read as that key. */
  lemma {:induction false} WrittenNormalises(f: string, key: string)
    requires Writes(f, key) && AllInAlphabet(key)
    ensures Normalise(f) == key
  {
    WrittenIsPlain(f, key);
    StripLeftKeeps(f);
    StripRightKeeps(StripLeft(f));
    WrittenReads(f, key);
  }

  lemma {:induction false} KeysAreLetters(mac: Mac, p: Payload)
    requires Packable(p)
    ensures AllInAlphabet(KeyOf(mac, p))
  {
    GroupsRoundTrip(Pack(p) + mac(Pack(p)));
  }

  /** Dashes, spaces and lower case do not change the verdict on a key. */
  lemma {:induction false} WritingIsIrrelevant(mac: Mac, p: Payload, f: string, today: int)
    requires Packable(p) && Writes(f, KeyOf(mac, p))
    ensures Validate(mac, f, today) == Validate(mac, KeyOf(mac, p), today)
  {
    hide Decode, Normalise, Dated;
    var key := KeyOf(mac, p);
    KeysAreLetters(mac, p);
    WrittenNormalises(f, key);
    WritesItself(key);
    WrittenNormalises(key, key);
    WrittenReads(f, key);
  }

  // ------------------------------------------------------------------ authenticity

  /** A key reads as its own payload and signature. */
  lemma {:induction false} KeyReads(mac: Mac, p: Payload)
    requires Packable(p)
    ensures Decode(KeyOf(mac, p)) == Some(Pack(p) + mac(Pack(p)))
  {
    hide Decode, Encode;
    DecodeEncode(Pack(p) + mac(Pack(p)));
  }

  /** What passes the signature check is the key of its own payload. */
  lemma {:induction false} AuthenticIsKey(mac: Mac, k: string, payload: seq<Byte>)
    requires |k| == 32 && |payload| == 8 && Decode(k) == Some(payload + mac(payload))
    ensures k == KeyOf(mac, Unpack(payload))
  {
    hide Decode, Encode, Pack, Unpack;
    PackUnpack(payload);
    DecodesWholeIff(k, payload + mac(payload));
  }

  /** How the bytes of a key lie: version, edition, two days and flags of 16 bits, high byte first, and the
      signature of those eight. */
  ghost predicate LaidOut(raw: seq<Byte>, mac: Mac, version: int, edition: int, issued: int, expiry: int, flags: int) {
    && |raw| == 20 && raw[0] == version && raw[1] == edition
    && (raw[2] as int) * 256 + raw[3] == issued
    && (raw[4] as int) * 256 + raw[5] == expiry
    && (raw[6] as int) * 256 + raw[7] == flags
    && raw[8..] == mac(raw[..8])
  }

  lemma {:induction false} KeyLayout(mac: Mac, p: Payload)
    requires Packable(p)
    ensures var raw := Decode(KeyOf(mac, p));
            raw.Some? && LaidOut(raw.value, mac, p.version, p.edition, p.issued, p.expiry, p.flags)
  {
    hide Decode, Encode;
    KeyReads(mac, p);
    var raw := Pack(p) + mac(Pack(p));
    assert raw[..8] == Pack(p) && raw[8..] == mac(Pack(p));
  }

  /** What a minted key holds. */
  lemma {:induction false} MintedLayout(mac: Mac, edition: string, validDays: int, issued: int, flags: int)
    requires Mint(mac, edition, validDays, issued, flags).Key?
    ensures var key := Mint(mac, edition, validDays, issued, flags).key;
            var id := if edition == "trial" then 0 else if edition == "standard" then 1 else 2;
            && |key| == 32 && Decode(key).Some?
            && LaidOut(Decode(key).value, mac, 1, id, issued, issued + validDays, flags)
  {
    hide Decode, Encode, Pack, LaidOut;
    KeyLayout(mac, Payload(Version, EditionId(edition).value, issued, issued + validDays, flags));
  }

  /** Which reason each text gets, and what else is reported with it. */
  lemma {:induction false} Reasons(mac: Mac, key: string, today: int)
    ensures var info := Validate(mac, key, today);
            var k := Normalise(key);
            && (info.valid <==> info.reason.Good?)
            && (info.reason.NoKey? <==> key == "")
            && (info.reason.NotThirtyTwo? <==> key != "" && |k| != 32)
            && (info.reason.NotBase32? <==> key != "" && |k| == 32 && Decode(k).None?)
            && (!info.reason.Good? && !info.reason.Expired? ==>
                  info.edition == "" && info.issued.None? && info.expiry.None? && info.daysRemaining == 0)
    ensures key != "" && |Normalise(key)| == 32 && Decode(Normalise(key)).Some? ==>
              ReasonFor(mac, Decode(Normalise(key)).value, today, Validate(mac, key, today).reason)
  {
    hide Decode, Normalise;
  }

  ghost predicate ReasonFor(mac: Mac, raw: seq<Byte>, today: int, reason: Reason) {
    && (reason.WrongLength? <==> |raw| != 20)
    && (|raw| == 20 ==>
          var signed := mac(raw[..8]) == raw[8..];
          var expiry := (raw[4] as int) * 256 + raw[5];
          && (reason.BadSignature? <==> !signed)
          && (reason.UnsupportedVersion? <==> signed && raw[0] != 1)
          && (reason.UnsupportedVersion? ==> reason.version == raw[0])
          && (reason.Expired? <==> signed && raw[0] == 1 && expiry < today)
          && (reason.Expired? ==> reason.on == expiry)
          && (reason.Good? <==> signed && raw[0] == 1 && today <= expiry))
  }

  lemma {:induction false} KeyValidates(mac: Mac, p: Payload, f: string, today: int)
    requires Packable(p) && f != [] && Normalise(f) == KeyOf(mac, p)
    ensures Validate(mac, f, today) == Dated(p, today)
  {
    hide Decode, Encode, Normalise, Dated, Pack, Unpack;
    var raw := Pack(p) + mac(Pack(p));
    assert raw[..8] == Pack(p) && raw[8..] == mac(Pack(p));
    UnpackPack(p);
    KeyReads(mac, p);
  }

  /** Minting succeeds exactly for the three editions and for days and flags of 16 bits. */
  lemma {:induction false} MintsIff(mac: Mac, edition: string, validDays: int, issued: int, flags: int)
    ensures Mint(mac, edition, validDays, issued, flags).Key?
       <==> edition in {"trial", "standard", "enterprise"}
            && 0 <= issued < 65536 && 0 <= issued + validDays < 65536 && 0 <= flags < 65536
    ensures Mint(mac, edition, validDays, issued, flags).UnknownEdition?
       <==> edition !in {"trial", "standard", "enterprise"}
  {
  }

  /** The round trip: a minted key, however written, is valid exactly up to its expiry day, and reports its
      edition, its dates and exactly the days that remain. */
  lemma {:induction false} MintThenValidate(mac: Mac, edition: string, validDays: int, issued: int, flags: int, f: string, today: int)
    requires var m := Mint(mac, edition, validDays, issued, flags); m.Key? && Writes(f, m.key)
    ensures var info := Validate(mac, f, today);
            var expiry := issued + validDays;
            && (info.valid <==> today <= expiry)
            && info.reason == (if today <= expiry then Good else Expired(expiry))
            && info.edition == edition
            && info.issued == Some(issued) && info.expiry == Some(expiry)
            && info.daysRemaining == expiry - today
  {
    hide Decode, Encode, Normalise, Pack, Unpack, Writes;
    var id := EditionId(edition).value;
    var p := Payload(Version, id, issued, issued + validDays, flags);
    EditionNames(edition, id);
    KeysAreLetters(mac, p);
    WrittenNormalises(f, KeyOf(mac, p));
    WrittenReads(f, KeyOf(mac, p));
    KeyValidates(mac, p, f, today);
  }

  /** A trial lasts through the thirtieth day after issue. */
  lemma {:induction false} TrialLastsThirtyDays(mac: Mac, issued: int, today: int)
    ensures MintTrial(mac, issued).Key? <==> 0 <= issued <= 65505
    ensures MintTrial(mac, issued).Key? ==>
              var info := Validate(mac, MintTrial(mac, issued).key, today);
              info.edition == "trial" && (info.valid <==> today <= issued + 30)
  {
    hide Decode, Encode, Normalise, Pack, Validate;
    if MintTrial(mac, issued).Key? {
      var key := MintTrial(mac, issued).key;
      KeysAreLetters(mac, Payload(Version, 0, issued, issued + 30, 0));
      WritesItself(key);
      MintThenValidate(mac, "trial", TrialDays, issued, 0, key, today);
    }
  }

  /** Some current payload whose key this is. */
  ghost predicate IsCurrentKey(mac: Mac, k: string, today: int) {
    exists p: Payload :: Packable(p) && p.version == 1 && today <= p.expiry && k == KeyOf(mac, p)
  }

  /** Exactly the valid keys: those that read as the signed text of a version-1 payload not yet expired. */
  lemma {:induction false} ValidIff(mac: Mac, key: string, today: int)
    ensures Validate(mac, key, today).valid <==> key != [] && IsCurrentKey(mac, Normalise(key), today)
  {
    hide Decode, Encode, Normalise, Pack, Unpack;
    var k := Normalise(key);
    if Validate(mac, key, today).valid {
      var raw := Decode(k).value;
      assert raw == raw[..8] + raw[8..];
      AuthenticIsKey(mac, k, raw[..8]);
      assert k == KeyOf(mac, Unpack(raw[..8]));
    }
    if key != [] && IsCurrentKey(mac, k, today) {
      var p :| Packable(p) && p.version == Version && today <= p.expiry && k == KeyOf(mac, p);
      KeyValidates(mac, p, key, today);
    }
  }

  /** The payload's bytes in a key as it is read. */
  function PayloadBytes(key: string): Option<seq<Byte>> {
    if |Normalise(key)| != 32 then None
    else
      match Decode(Normalise(key))
      case None => None
      case Some(raw) => if |raw| != 20 then None else Some(raw[..8])
  }

  lemma {:induction false} PayloadOfKey(mac: Mac, p: Payload, key: string)
    requires Packable(p) && Normalise(key) == KeyOf(mac, p)
    ensures PayloadBytes(key) == Some(Pack(p)) && Pack(p)[1] == p.edition
  {
    hide Decode, Encode, Normalise;
    KeyReads(mac, p);
    assert (Pack(p) + mac(Pack(p)))[..8] == Pack(p);
  }

  /** A valid key could have been minted exactly when the edition byte of its payload is one of the three
      known ones. */
  lemma {:induction false} ValidIsMintedIff(mac: Mac, key: string, today: int)
    requires Validate(mac, key, today).valid
    ensures PayloadBytes(key).Some? && |PayloadBytes(key).value| == 8
    ensures var mintable := exists edition, validDays, issued, flags ::
              Mint(mac, edition, validDays, issued, flags) == Key(Normalise(key));
            mintable <==> PayloadBytes(key).value[1] in {0, 1, 2}
  {
    hide Decode, Encode, Normalise, Pack, Unpack, KeyOf, PayloadBytes;
    var k := Normalise(key);
    ValidIff(mac, key, today);
    var p :| Packable(p) && p.version == Version && today <= p.expiry && k == KeyOf(mac, p);
    PayloadOfKey(mac, p, key);
    var name := EditionName(p.edition);
    EditionNames(name, p.edition);
    if p.edition in {0, 1, 2} {
      assert Mint(mac, name, p.expiry - p.issued, p.issued, p.flags) == Key(k);
    }
    if edition, validDays, issued, flags :| Mint(mac, edition, validDays, issued, flags) == Key(k) {
      var id := EditionId(edition).value;
      PayloadOfKey(mac, Payload(Version, id, issued, issued + validDays, flags), key);
    }
  }

  /** Such a key that was never minted: edition number 7 is accepted, as "unknown", whatever the secret. */
  lemma {:induction false} UnmintedEditionIsAccepted(mac: Mac)
    ensures var key := KeyOf(mac, Payload(Version, 7, 0, 100, 0));
            var info := Validate(mac, key, 50);
            && info.valid && info.edition == "unknown"
            && forall edition, validDays, issued, flags ::
                 Mint(mac, edition, validDays, issued, flags) != Key(key)
  {
    hide Decode, Encode, Normalise, Pack, Unpack, Validate;
    var p := Payload(Version, 7, 0, 100, 0);
    var key := KeyOf(mac, p);
    KeysAreLetters(mac, p);
    WritesItself(key);
    WrittenNormalises(key, key);
    KeyValidates(mac, p, key, 50);
    ValidIsMintedIff(mac, key, 50);
    PayloadOfKey(mac, p, key);
  }
}
