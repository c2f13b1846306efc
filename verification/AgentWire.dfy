/** The SSH agent's side of the wire: `uint32` and `string` of section 5 of
    RFC 4251, the two requests it answers, and the frames they travel in. */
module AgentWire {
  import opened Wrappers

  type Byte = n: nat | n < 256

  type Bytes = seq<Byte>

  const U32: nat := 0x1_0000_0000

  const REQUEST_IDENTITIES: Byte := 11
  const IDENTITIES_ANSWER: Byte := 12
  const SIGN_REQUEST: Byte := 13
  const SIGN_RESPONSE: Byte := 14
  const FAILURE: Byte := 5
  const MAX_MESSAGE: nat := 262144

  // ----- numbers and strings -----

  /** Four bytes, most significant first; larger numbers are cut to 32 bits. */
  function Be32(n: nat): (b: Bytes)
    ensures |b| == 4
  {
    [n / 256 / 256 / 256 % 256, n / 256 / 256 % 256, n / 256 % 256, n % 256]
  }

  function FromBe32(b: Bytes): nat
    requires |b| == 4
  {
    Joined(Joined(Joined(b[0], b[1]), b[2]), b[3])
  }

  /** A number and one byte more. */
  function Joined(high: nat, low: Byte): nat { high * 256 + low }

  lemma JoinedParts(high: nat, low: Byte)
    ensures Joined(high, low) / 256 == high && Joined(high, low) % 256 == low
  {
  }

  lemma JoinsAgain(n: nat)
    ensures Joined(n / 256, n % 256) == n
  {
  }

  lemma FitsFourBytes(n: nat, high: nat)
    requires n / 256 / 256 / 256 == high
    ensures n / U32 == high / 256
  {
  }

  lemma Be32Reads(n: nat)
    ensures FromBe32(Be32(n)) == n % U32
  {
    var a, b, c := n / 256 / 256 / 256, n / 256 / 256, n / 256;
    FitsFourBytes(n, a);
    assert a % 256 == a - a / 256 * 256;
    JoinsAgain(b);
    JoinsAgain(c);
    JoinsAgain(n);
    assert FromBe32(Be32(n)) == n - n / U32 * U32;
  }

  lemma FromBe32Fits(b: Bytes)
    requires |b| == 4
    ensures FromBe32(b) < U32
  {
  }

  /** A number, and what is left. */
  function ReadU32(rest: Bytes): Option<(nat, Bytes)> {
    if |rest| < 4 then None else Some((FromBe32(rest[..4]), rest[4..]))
  }

  function PutString(s: Bytes): Bytes { Be32(|s|) + s }

  function ReadString(rest: Bytes): Option<(Bytes, Bytes)> {
    match ReadU32(rest)
    case None => None
    case Some((n, left)) => if |left| < n then None else Some((left[..n], left[n..]))
  }

  lemma U32Reads(n: nat, tail: Bytes)
    requires n < U32
    ensures ReadU32(Be32(n) + tail) == Some((n, tail))
  {
    Be32Reads(n);
    hide Be32, FromBe32;
    assert (Be32(n) + tail)[..4] == Be32(n) && (Be32(n) + tail)[4..] == tail;
  }

  /** A string followed by anything reads back as itself exactly when its
      length fits 32 bits. */
  lemma StringReadsExactly(s: Bytes, tail: Bytes)
    ensures ReadString(PutString(s) + tail) == Some((s, tail)) <==> |s| < U32
  {
    Be32Reads(|s|);
    hide Be32, FromBe32;
    var all := PutString(s) + tail;
    assert all[..4] == Be32(|s|) && all[4..] == s + tail;
    if |s| < U32 { assert (s + tail)[..|s|] == s && (s + tail)[|s|..] == tail; }
  }

  /** Whatever the bytes, a string that was read lies within them, right after
      its length, and reading goes on right after it. */
  lemma ReadStringIsWithin(rest: Bytes)
    ensures match ReadString(rest)
      case Some((s, left)) => |s| < U32 && rest == Be32(|s|) + s + left
      case None => |rest| < 4 || |rest| < 4 + FromBe32(rest[..4])
  {
    hide Be32, FromBe32;
    if |rest| >= 4 {
      Be32OfRead(rest[..4]);
      FromBe32Fits(rest[..4]);
      assert rest == rest[..4] + rest[4..];
    }
  }

  lemma Be32OfRead(b: Bytes)
    requires |b| == 4
    ensures Be32(FromBe32(b)) == b
  {
    var x, y := Joined(b[0], b[1]), Joined(Joined(b[0], b[1]), b[2]);
    JoinedParts(b[0], b[1]);
    JoinedParts(x, b[2]);
    JoinedParts(y, b[3]);
    hide Joined;
  }

  /** Reads forward through a message. */
  class Reader {
    var rest: Bytes

    constructor (rest: Bytes)
      ensures this.rest == rest
    {
      this.rest := rest;
    }

    /** A message that is too short is left as it is. */
    method U32() returns (r: Option<nat>)
      modifies this
      ensures match ReadU32(old(rest))
        case Some((n, left)) => r == Some(n) && rest == left
        case None => r == None && rest == old(rest)
    {
      if |rest| < 4 { return None; }
      var h := rest[..4];
      rest := rest[4..];
      r := Some(FromBe32(h));
    }

    /** On failure the length is gone, nothing else. */
    method String() returns (r: Option<Bytes>)
      modifies this
      ensures match ReadString(old(rest))
        case Some((s, left)) => r == Some(s) && rest == left
        case None => r == None && rest == if |old(rest)| < 4 then old(rest) else old(rest)[4..]
    {
      var n := U32();
      if n.None? || |rest| < n.value { return None; }
      r, rest := Some(rest[..n.value]), rest[n.value..];
    }
  }

  // ----- requests and answers -----

  /** A key on offer: `public` is its public half on the wire, if it encodes. */
  datatype ServedKey = ServedKey(name: Bytes, public: Option<Bytes>, private: nat)

  datatype Hash = Sha512 | Sha256

  /** What a signature is made with. */
  type Signer = (ServedKey, Option<Hash>, Bytes) -> Option<Bytes>

  /** Whether the user lets a key sign. */
  type Policy = ServedKey -> bool

  function PutKeys(keys: seq<ServedKey>): Option<Bytes> {
    if keys == [] then Some([])
    else
      var last := keys[|keys| - 1];
      match PutKeys(keys[..|keys| - 1])
      case None => None
      case Some(out) =>
        if last.public.None? then None else Some(out + PutString(last.public.value) + PutString(last.name))
  }

  function AnswerIdentities(keys: seq<ServedKey>): Option<Bytes> {
    match PutKeys(keys)
    case None => None
    case Some(out) => Some([IDENTITIES_ANSWER] + Be32(|keys|) + out)
  }

  /** The first key that has this public half. */
  function KeyFor(keys: seq<ServedKey>, blob: Bytes): (r: Option<ServedKey>)
    ensures r.None? ==> forall i :: 0 <= i < |keys| ==> keys[i].public != Some(blob)
    ensures r.Some? ==> r.value in keys && r.value.public == Some(blob)
  {
    if keys == [] then None
    else if keys[0].public == Some(blob) then Some(keys[0])
    else KeyFor(keys[1..], blob)
  }

  /** The stronger hash wins when both flags are set. */
  function HashFor(flags: nat): Option<Hash> {
    if flags / 4 % 2 == 1 then Some(Sha512) else if flags / 2 % 2 == 1 then Some(Sha256) else None
  }

  function Sign(keys: seq<ServedKey>, policy: Policy, signer: Signer, blob: Bytes, data: Bytes, flags: nat):
      Option<Bytes>
  {
    match KeyFor(keys, blob)
    case None => None
    case Some(key) =>
      if !policy(key) then None
      else
        match signer(key, HashFor(flags), data)
        case None => None
        case Some(sig) => Some([SIGN_RESPONSE] + PutString(sig))
  }

  /** The fields of a sign request; what follows them is not looked at. */
  function SignFields(body: Bytes): Option<(Bytes, Bytes, nat)> {
    match ReadString(body)
    case None => None
    case Some((blob, rest1)) =>
      match ReadString(rest1)
      case None => None
      case Some((data, rest2)) =>
        match ReadU32(rest2)
        case None => None
        case Some((flags, _)) => Some((blob, data, flags))
  }

  function Handled(msg: Bytes, keys: seq<ServedKey>, policy: Policy, signer: Signer): Option<Bytes> {
    if msg == [] then None
    else if msg[0] == REQUEST_IDENTITIES then AnswerIdentities(keys)
    else if msg[0] == SIGN_REQUEST then
      match SignFields(msg[1..])
      case None => None
      case Some((blob, data, flags)) => Sign(keys, policy, signer, blob, data, flags)
    else None
  }

  /** Whatever cannot be done is answered with a failure. */
  function Reply(msg: Bytes, keys: seq<ServedKey>, policy: Policy, signer: Signer): Bytes {
    match Handled(msg, keys, policy, signer)
    case Some(out) => out
    case None => [FAILURE]
  }

  // ----- the client's reading of them -----

  /** `n` public halves with their names, as a client reads them. */
  function ReadKeys(rest: Bytes, n: nat): Option<(seq<(Bytes, Bytes)>, Bytes)> {
    if n == 0 then Some(([], rest))
    else
      match ReadPair(rest)
      case None => None
      case Some((pair, rest1)) =>
        match ReadKeys(rest1, n - 1)
        case None => None
        case Some((more, left)) => Some(([pair] + more, left))
  }

  function ReadIdentities(msg: Bytes): Option<seq<(Bytes, Bytes)>> {
    if msg == [] || msg[0] != IDENTITIES_ANSWER then None
    else
      match ReadU32(msg[1..])
      case None => None
      case Some((n, rest)) =>
        match ReadKeys(rest, n)
        case Some((keys, left)) => if left == [] then Some(keys) else None
        case None => None
  }

  ghost predicate Encodable(keys: seq<ServedKey>) {
    forall i :: 0 <= i < |keys| ==> keys[i].public.Some? && |keys[i].public.value| < U32 && |keys[i].name| < U32
  }

  function Offered(keys: seq<ServedKey>): seq<(Bytes, Bytes)>
    requires forall i :: 0 <= i < |keys| ==> keys[i].public.Some?
  {
    seq(|keys|, i requires 0 <= i < |keys| => (keys[i].public.value, keys[i].name))
  }

  /** What is read does not depend on what comes after it. */
  lemma ReadStringThen(a: Bytes, b: Bytes)
    requires ReadString(a).Some?
    ensures ReadString(a + b) == Some((ReadString(a).value.0, ReadString(a).value.1 + b))
  {
    hide FromBe32;
    assert (a + b)[..4] == a[..4] && (a + b)[4..] == a[4..] + b;
    var n := FromBe32(a[..4]);
    assert (a[4..] + b)[..n] == a[4..][..n] && (a[4..] + b)[n..] == a[4..][n..] + b;
  }

  /** One pair, and what is left. */
  function ReadPair(rest: Bytes): Option<((Bytes, Bytes), Bytes)> {
    match ReadString(rest)
    case None => None
    case Some((blob, rest1)) =>
      match ReadString(rest1)
      case None => None
      case Some((name, rest2)) => Some(((blob, name), rest2))
  }

  lemma ReadPairThen(a: Bytes, b: Bytes)
    requires ReadPair(a).Some?
    ensures ReadPair(a + b) == Some((ReadPair(a).value.0, ReadPair(a).value.1 + b))
  {
    hide ReadString;
    ReadStringThen(a, b);
    ReadStringThen(ReadString(a).value.1, b);
  }

  lemma {:induction false} ReadKeysConcat(a: Bytes, m: nat, b: Bytes, n: nat)
    requires ReadKeys(a, m).Some? && ReadKeys(a, m).value.1 == []
    ensures ReadKeys(a + b, m + n) ==
      match ReadKeys(b, n)
      case Some((more, left)) => Some((ReadKeys(a, m).value.0 + more, left))
      case None => None
    decreases m
  {
    hide ReadPair;
    if m == 0 {
      assert a + b == b;
      if ReadKeys(b, n).Some? { assert [] + ReadKeys(b, n).value.0 == ReadKeys(b, n).value.0; }
    } else {
      var (pair, rest) := ReadPair(a).value;
      ReadPairThen(a, b);
      ReadKeysConcat(rest, m - 1, b, n);
      if ReadKeys(b, n).Some? {
        var more := ReadKeys(b, n).value.0;
        assert [pair] + (ReadKeys(rest, m - 1).value.0 + more) == ReadKeys(a, m).value.0 + more;
      }
    }
  }

  lemma OnePairReads(blob: Bytes, name: Bytes)
    requires |blob| < U32 && |name| < U32
    ensures ReadPair(PutString(blob) + PutString(name)) == Some(((blob, name), []))
  {
    hide ReadString, PutString;
    StringReadsExactly(blob, PutString(name));
    StringReadsExactly(name, []);
    assert PutString(name) + [] == PutString(name);
  }

  lemma {:induction false} KeysRead(keys: seq<ServedKey>)
    requires Encodable(keys)
    ensures PutKeys(keys).Some? && ReadKeys(PutKeys(keys).value, |keys|) == Some((Offered(keys), []))
  {
    hide ReadPair, PutString;
    if keys == [] {
    } else {
      var init, last := keys[..|keys| - 1], keys[|keys| - 1];
      KeysRead(init);
      var out := PutKeys(init).value;
      var one := PutString(last.public.value) + PutString(last.name);
      OnePairReads(last.public.value, last.name);
      var pair := (last.public.value, last.name);
      assert ReadKeys([], 0) == Some(([], [])) && [pair] + [] == [pair];
      assert ReadKeys(one, 1) == Some(([(last.public.value, last.name)], []));
      ReadKeysConcat(out, |init|, one, 1);
      assert out + one == PutKeys(keys).value;
      assert Offered(init) + [(last.public.value, last.name)] == Offered(keys);
    }
  }

  /** A client that reads the answer gets every key on offer with its name, in order. */
  lemma IdentitiesRoundTrip(keys: seq<ServedKey>, policy: Policy, signer: Signer)
    requires Encodable(keys) && |keys| < U32
    ensures ReadIdentities(Reply([REQUEST_IDENTITIES], keys, policy, signer)) == Some(Offered(keys))
  {
    hide Be32, FromBe32, ReadKeys, PutKeys, ReadU32, Encodable, Offered;
    KeysRead(keys);
    var out := PutKeys(keys).value;
    var msg := [IDENTITIES_ANSWER] + Be32(|keys|) + out;
    assert msg[1..] == Be32(|keys|) + out;
    U32Reads(|keys|, out);
  }

  function SignRequest(blob: Bytes, data: Bytes, flags: nat): Bytes {
    [SIGN_REQUEST] + PutString(blob) + PutString(data) + Be32(flags)
  }

  /** The agent reads a sign request as the client wrote it, whatever follows it. */
  lemma SignRequestRoundTrip(
    blob: Bytes, data: Bytes, flags: nat, tail: Bytes, keys: seq<ServedKey>, policy: Policy, signer: Signer)
    requires |blob| < U32 && |data| < U32 && flags < U32
    ensures SignFields((SignRequest(blob, data, flags) + tail)[1..]) == Some((blob, data, flags))
    ensures Handled(SignRequest(blob, data, flags) + tail, keys, policy, signer) ==
              Sign(keys, policy, signer, blob, data, flags)
  {
    hide Be32, FromBe32, ReadString, PutString, ReadU32, Sign;
    var rest2 := Be32(flags) + tail;
    var rest1 := PutString(data) + rest2;
    assert (SignRequest(blob, data, flags) + tail)[1..] == PutString(blob) + rest1;
    StringReadsExactly(blob, rest1);
    StringReadsExactly(data, rest2);
    U32Reads(flags, tail);
  }

  /** Nothing is signed but by a key on offer, with the policy's consent, over
      the bytes of the request. */
  lemma SignaturesAreAllowed(msg: Bytes, keys: seq<ServedKey>, policy: Policy, signer: Signer)
    requires msg != [] && msg[0] == SIGN_REQUEST && Handled(msg, keys, policy, signer).Some?
    ensures
      var fields := SignFields(msg[1..]);
      && fields.Some?
      && exists key, sig ::
           && key in keys && key.public == Some(fields.value.0) && policy(key)
           && signer(key, HashFor(fields.value.2), fields.value.1) == Some(sig)
           && Handled(msg, keys, policy, signer) == Some([SIGN_RESPONSE] + PutString(sig))
  {
    hide SignFields, PutString;
    var (blob, data, flags) := SignFields(msg[1..]).value;
    var key := KeyFor(keys, blob).value;
    assert signer(key, HashFor(flags), data).Some?;
  }

  /** Key `i` is the first on offer with that public half. */
  predicate FirstWith(keys: seq<ServedKey>, blob: Bytes, i: nat) {
    && i < |keys| && keys[i].public == Some(blob)
    && forall j :: 0 <= j < i ==> keys[j].public != Some(blob)
  }

  lemma {:induction false} FirstIsFound(keys: seq<ServedKey>, blob: Bytes, i: nat)
    requires FirstWith(keys, blob, i)
    ensures KeyFor(keys, blob) == Some(keys[i])
  {
    if i > 0 {
      assert keys[0].public != Some(blob);
      assert forall j :: 0 <= j < i - 1 ==> keys[1..][j] == keys[j + 1];
      FirstIsFound(keys[1..], blob, i - 1);
    }
  }

  lemma Halves(n: nat, bit: nat)
    requires bit < 2
    ensures (n * 2 + bit) / 2 == n && (n * 2 + bit) % 2 == bit
  {
  }

  lemma Quarters(n: nat, rest: nat)
    requires rest < 4
    ensures (n * 4 + rest) / 4 == n
  {
  }

  /** The third bit of the flags asks for SHA-512, the second for SHA-256 without it. */
  lemma FlagsChooseHash(rest: nat, sha512: nat, sha256: nat, low: nat)
    requires sha512 < 2 && sha256 < 2 && low < 2
    ensures HashFor(rest * 8 + sha512 * 4 + sha256 * 2 + low) ==
      if sha512 == 1 then Some(Sha512) else if sha256 == 1 then Some(Sha256) else None
  {
    Halves(rest * 4 + sha512 * 2 + sha256, low);
    Halves(rest * 2 + sha512, sha256);
    Quarters(rest * 2 + sha512, sha256 * 2 + low);
    Halves(rest, sha512);
  }

  /** A sign request for a key on offer is answered with its signature exactly
      when the policy lets the key sign and it can; a client reads it back. */
  lemma SignAnswerExactly(
    blob: Bytes, data: Bytes, flags: nat, tail: Bytes, keys: seq<ServedKey>, policy: Policy, signer: Signer, i: nat)
    requires |blob| < U32 && |data| < U32 && flags < U32 && FirstWith(keys, blob, i)
    ensures
      var reply, sig := Reply(SignRequest(blob, data, flags) + tail, keys, policy, signer),
        signer(keys[i], HashFor(flags), data);
      if policy(keys[i]) && sig.Some? then
        reply == [SIGN_RESPONSE] + PutString(sig.value) &&
          (|sig.value| < U32 ==> ReadString(reply[1..]) == Some((sig.value, [])))
      else reply == [FAILURE]
  {
    hide Handled, SignRequest, HashFor, PutString, ReadString, KeyFor;
    SignRequestRoundTrip(blob, data, flags, tail, keys, policy, signer);
    FirstIsFound(keys, blob, i);
    var sig := signer(keys[i], HashFor(flags), data);
    if policy(keys[i]) && sig.Some? && |sig.value| < U32 {
      StringReadsExactly(sig.value, []);
      assert ([SIGN_RESPONSE] + PutString(sig.value))[1..] == PutString(sig.value) + [];
    }
  }

  /** Without such a key, with a key that does not encode, and for anything but
      the two requests the answer is a failure. */
  lemma RestIsRefused(msg: Bytes, keys: seq<ServedKey>, policy: Policy, signer: Signer)
    requires
      || msg == [] || msg[0] !in {REQUEST_IDENTITIES, SIGN_REQUEST}
      || (msg[0] == REQUEST_IDENTITIES && exists i :: 0 <= i < |keys| && keys[i].public == None)
      || (msg[0] == SIGN_REQUEST && (SignFields(msg[1..]).None? ||
            forall i :: 0 <= i < |keys| ==> keys[i].public != Some(SignFields(msg[1..]).value.0)))
    ensures Reply(msg, keys, policy, signer) == [FAILURE]
  {
    hide SignFields, PutString, HashFor;
    if msg != [] && msg[0] == REQUEST_IDENTITIES { UnencodedStops(keys); }
  }

  lemma {:induction false} UnencodedStops(keys: seq<ServedKey>)
    requires exists i :: 0 <= i < |keys| && keys[i].public == None
    ensures PutKeys(keys) == None
  {
    var i :| 0 <= i < |keys| && keys[i].public == None;
    var n := |keys| - 1;
    if i < n {
      assert keys[..n][i] == keys[i];
      UnencodedStops(keys[..n]);
    }
  }

  // ----- frames -----

  predicate Legal(msg: Bytes) { 1 <= |msg| <= MAX_MESSAGE }

  /** No complete legal frame begins here: the connection ends. */
  predicate Stuck(input: Bytes) {
    |input| < 4 || FromBe32(input[..4]) == 0 || FromBe32(input[..4]) > MAX_MESSAGE || |input| - 4 < FromBe32(input[..4])
  }

  function FirstMessage(input: Bytes): Bytes
    requires !Stuck(input)
  {
    input[4..4 + FromBe32(input[..4])]
  }

  function Remaining(input: Bytes): (rest: Bytes)
    requires !Stuck(input)
    ensures |rest| < |input|
  {
    input[4 + FromBe32(input[..4])..]
  }

  /** The frames a connection serves, and what it leaves unread. */
  function Frames(input: Bytes): (seq<Bytes>, Bytes)
    decreases |input|
  {
    if Stuck(input) then ([], input)
    else
      var (more, left) := Frames(Remaining(input));
      ([FirstMessage(input)] + more, left)
  }

  /** Messages as frames, one after the other. */
  function Framed(msgs: seq<Bytes>): Bytes {
    if msgs == [] then [] else PutString(msgs[0]) + Framed(msgs[1..])
  }

  lemma Glue(head: Bytes, msg: Bytes, rest: Bytes)
    requires |head| == 4
    ensures
      var input := head + msg + rest;
      && |input| == 4 + |msg| + |rest| && input[..4] == head
      && input[4..4 + |msg|] == msg && input[4 + |msg|..] == rest
  {
  }

  lemma Cut(input: Bytes, n: nat)
    requires 4 + n <= |input|
    ensures input == input[..4] + input[4..4 + n] + input[4 + n..] && |input[..4]| == 4 && |input[4..4 + n]| == n
  {
  }

  lemma NotStuck(input: Bytes, n: nat)
    requires |input| >= 4 + n && FromBe32(input[..4]) == n && 1 <= n <= MAX_MESSAGE
    ensures !Stuck(input) && FirstMessage(input) == input[4..4 + n] && Remaining(input) == input[4 + n..]
  {
    hide FromBe32;
  }

  lemma LegalLength(msg: Bytes)
    requires Legal(msg)
    ensures 1 <= |msg| <= MAX_MESSAGE && |msg| % U32 == |msg|
  {
  }

  lemma PutStringIs(msg: Bytes)
    ensures PutString(msg) == Be32(|msg|) + msg
  {
  }

  lemma FirstFrame(msg: Bytes, rest: Bytes)
    requires Legal(msg)
    ensures !Stuck(PutString(msg) + rest)
    ensures FirstMessage(PutString(msg) + rest) == msg && Remaining(PutString(msg) + rest) == rest
  {
    hide *;
    LegalLength(msg);
    Be32Reads(|msg|);
    PutStringIs(msg);
    Glue(Be32(|msg|), msg, rest);
    NotStuck(Be32(|msg|) + msg + rest, |msg|);
  }

  lemma FrameLength(input: Bytes) returns (n: nat)
    requires !Stuck(input)
    ensures 4 + n <= |input| && FromBe32(input[..4]) == n && 1 <= n <= MAX_MESSAGE
    ensures FirstMessage(input) == input[4..4 + n] && Remaining(input) == input[4 + n..]
  {
    hide FromBe32;
    n := FromBe32(input[..4]);
  }

  lemma LegalIs(msg: Bytes)
    requires 1 <= |msg| <= MAX_MESSAGE
    ensures Legal(msg)
  {
  }

  lemma FrameSplits(input: Bytes)
    requires !Stuck(input)
    ensures Legal(FirstMessage(input)) && input == PutString(FirstMessage(input)) + Remaining(input)
  {
    hide *;
    var n := FrameLength(input);
    Cut(input, n);
    Be32OfRead(input[..4]);
    PutStringIs(FirstMessage(input));
    LegalIs(FirstMessage(input));
  }

  lemma FramedFirst(msg: Bytes, more: seq<Bytes>, tail: Bytes)
    ensures Framed([msg] + more) + tail == PutString(msg) + (Framed(more) + tail)
  {
    hide PutString;
    assert ([msg] + more)[1..] == more;
  }

  /** Legal messages are served as they were framed, up to the first thing that is none. */
  lemma {:induction false} FramesRoundTrip(msgs: seq<Bytes>, tail: Bytes)
    requires (forall i :: 0 <= i < |msgs| ==> Legal(msgs[i])) && Stuck(tail)
    ensures Frames(Framed(msgs) + tail) == (msgs, tail)
  {
    hide Stuck, Legal, FirstMessage, Remaining, PutString;
    if msgs == [] {
      assert Framed(msgs) + tail == tail;
    } else {
      FramesRoundTrip(msgs[1..], tail);
      FirstFrame(msgs[0], Framed(msgs[1..]) + tail);
      assert [msgs[0]] + msgs[1..] == msgs;
      FramedFirst(msgs[0], msgs[1..], tail);
    }
  }

  /** Any input is legal frames and then something that is none. */
  lemma {:induction false} FramesAreAll(input: Bytes)
    ensures
      var (msgs, left) := Frames(input);
      && input == Framed(msgs) + left && Stuck(left)
      && forall i :: 0 <= i < |msgs| ==> Legal(msgs[i])
    decreases |input|
  {
    hide Stuck, Legal, FirstMessage, Remaining, PutString;
    if Stuck(input) {
      assert Framed([]) + input == input;
    } else {
      FrameSplits(input);
      FramesAreAll(Remaining(input));
      var (more, left) := Frames(Remaining(input));
      FramedFirst(FirstMessage(input), more, left);
    }
  }

  /** The keys on offer when request `i` is handled: only the program itself
      swaps them, `swaps[i]` just before that request. */
  function KeysAt(keys: seq<ServedKey>, swaps: seq<Option<seq<ServedKey>>>, i: nat): seq<ServedKey> {
    if i < |swaps| && swaps[i].Some? then swaps[i].value
    else if i == 0 then keys
    else KeysAt(keys, swaps, i - 1)
  }

  predicate NoSwap(swaps: seq<Option<seq<ServedKey>>>, lo: nat, hi: nat) {
    forall j :: lo <= j < hi && j < |swaps| ==> swaps[j].None?
  }

  /** Request `i` sees the keys of the last swap up to it, or those there were. */
  lemma {:induction false} KeysAreTheLastOffered(
    keys: seq<ServedKey>, swaps: seq<Option<seq<ServedKey>>>, i: nat, j: nat)
    ensures NoSwap(swaps, 0, i + 1) ==> KeysAt(keys, swaps, i) == keys
    ensures j <= i && j < |swaps| && swaps[j].Some? && NoSwap(swaps, j + 1, i + 1) ==>
      KeysAt(keys, swaps, i) == swaps[j].value
  {
    if i > 0 { KeysAreTheLastOffered(keys, swaps, i - 1, j); }
  }

  /** One reply for each message, each to the keys on offer then. */
  function Replies(msgs: seq<Bytes>, keys: seq<ServedKey>, swaps: seq<Option<seq<ServedKey>>>, policy: Policy,
      signer: Signer):
    (r: seq<Bytes>)
    ensures |r| == |msgs|
  {
    seq(|msgs|, i requires 0 <= i < |msgs| => Reply(msgs[i], KeysAt(keys, swaps, i), policy, signer))
  }

  lemma {:induction false} FramedConcat(a: seq<Bytes>, b: seq<Bytes>)
    ensures Framed(a + b) == Framed(a) + Framed(b)
  {
    if a == [] {
      assert a + b == b;
    } else {
      assert (a + b)[1..] == a[1..] + b;
      FramedConcat(a[1..], b);
    }
  }

  /** `n` strings in a row. */
  function ReadStrings(rest: Bytes, n: nat): Option<(seq<Bytes>, Bytes)> {
    if n == 0 then Some(([], rest))
    else
      match ReadString(rest)
      case None => None
      case Some((s, left)) =>
        match ReadStrings(left, n - 1)
        case None => None
        case Some((more, end)) => Some(([s] + more, end))
  }

  lemma {:induction false} FramedReads(msgs: seq<Bytes>)
    requires forall i :: 0 <= i < |msgs| ==> |msgs[i]| < U32
    ensures ReadStrings(Framed(msgs), |msgs|) == Some((msgs, []))
  {
    hide ReadString, PutString;
    if msgs != [] {
      StringReadsExactly(msgs[0], Framed(msgs[1..]));
      FramedReads(msgs[1..]);
      assert [msgs[0]] + msgs[1..] == msgs;
    }
  }

  class Agent {
    var keys: seq<ServedKey>
    const policy: Policy
    const signer: Signer

    constructor (policy: Policy, signer: Signer)
      ensures keys == [] && this.policy == policy && this.signer == signer
    {
      keys, this.policy, this.signer := [], policy, signer;
    }

    /** The program offers other keys. */
    method SetKeys(offered: seq<ServedKey>)
      modifies this
      ensures keys == offered
    {
      keys := offered;
    }

    /** The keys with their names, appended one by one. */
    method Identities() returns (r: Option<Bytes>)
      ensures r == AnswerIdentities(keys)
    {
      hide Be32, PutString;
      var out := [];
      for i := 0 to |keys|
        invariant PutKeys(keys[..i]) == Some(out)
      {
        assert keys[..i + 1][..i] == keys[..i];
        if keys[i].public.None? {
          NoAnswer(keys, i + 1);
          return None;
        }
        out := out + PutString(keys[i].public.value) + PutString(keys[i].name);
      }
      assert keys[..|keys|] == keys;
      r := Some([IDENTITIES_ANSWER] + Be32(|keys|) + out);
    }

    method SignWith(body: Bytes) returns (r: Option<Bytes>)
      ensures r == match SignFields(body) case None => None case Some((blob, data, flags)) =>
        Sign(keys, policy, signer, blob, data, flags)
    {
      hide ReadString, ReadU32, KeyFor, HashFor, PutString;
      var reader := new Reader(body);
      var blob := reader.String();
      if blob.None? { return None; }
      var data := reader.String();
      if data.None? { return None; }
      var flags := reader.U32();
      if flags.None? { return None; }
      var key := KeyFor(keys, blob.value);
      if key.None? || !policy(key.value) { return None; }
      var sig := signer(key.value, HashFor(flags.value), data.value);
      if sig.None? { return None; }
      r := Some([SIGN_RESPONSE] + PutString(sig.value));
    }

    /** One request; the keys stay what they are. */
    method Handle(msg: Bytes) returns (reply: Bytes)
      ensures reply == Reply(msg, keys, policy, signer)
    {
      hide AnswerIdentities, SignFields, Sign;
      var out: Option<Bytes> := None;
      if msg != [] && msg[0] == REQUEST_IDENTITIES {
        out := Identities();
      } else if msg != [] && msg[0] == SIGN_REQUEST {
        out := SignWith(msg[1..]);
      }
      reply := if out.Some? then out.value else [FAILURE];
    }

    /** A connection: each legal frame is answered by exactly one frame, in
        order, and whatever clients send, only `swaps` changes the keys. */
    method Serve(input: Bytes, swaps: seq<Option<seq<ServedKey>>>) returns (output: Bytes)
      modifies this
      ensures output == Framed(Replies(Frames(input).0, old(keys), swaps, policy, signer))
      ensures keys == if Frames(input).0 == [] then old(keys) else KeysAt(old(keys), swaps, |Frames(input).0| - 1)
    {
      hide Stuck, FirstMessage, Remaining, Reply, PutString, Framed, Replies;
      var left, i := input, 0;
      output := [];
      ghost var msgs: seq<Bytes> := [];
      NoReplies(keys, swaps, policy, signer);
      while !Stuck(left)
        invariant i == |msgs| && msgs + Frames(left).0 == Frames(input).0
        invariant output == Framed(Replies(msgs, old(keys), swaps, policy, signer))
        invariant keys == if i == 0 then old(keys) else KeysAt(old(keys), swaps, i - 1)
        decreases |left|
      {
        var msg := FirstMessage(left);
        assert msgs + ([msg] + Frames(Remaining(left)).0) == (msgs + [msg]) + Frames(Remaining(left)).0;
        if i < |swaps| && swaps[i].Some? { SetKeys(swaps[i].value); }
        var reply := Handle(msg);
        OneMoreReply(msgs, msg, old(keys), swaps, policy, signer);
        msgs, left, i, output := msgs + [msg], Remaining(left), i + 1, output + PutString(reply);
      }
      assert msgs + Frames(left).0 == msgs;
    }
  }

  lemma NoReplies(keys: seq<ServedKey>, swaps: seq<Option<seq<ServedKey>>>, policy: Policy, signer: Signer)
    ensures Framed(Replies([], keys, swaps, policy, signer)) == []
  {
  }

  lemma {:induction false} NoAnswer(keys: seq<ServedKey>, i: nat)
    requires i <= |keys| && PutKeys(keys[..i]).None?
    ensures PutKeys(keys).None?
    decreases |keys| - i
  {
    if i == |keys| {
      assert keys[..i] == keys;
    } else {
      assert keys[..i + 1][..i] == keys[..i];
      NoAnswer(keys, i + 1);
    }
  }

  lemma OneMoreReply(
    msgs: seq<Bytes>, msg: Bytes, keys: seq<ServedKey>, swaps: seq<Option<seq<ServedKey>>>, policy: Policy,
      signer: Signer)
    ensures Framed(Replies(msgs + [msg], keys, swaps, policy, signer)) ==
              Framed(Replies(msgs, keys, swaps, policy, signer)) +
              PutString(Reply(msg, KeysAt(keys, swaps, |msgs|), policy, signer))
  {
    hide *;
    var reply := Reply(msg, KeysAt(keys, swaps, |msgs|), policy, signer);
    RepliesAppend(msgs, msg, keys, swaps, policy, signer);
    FramedConcat(Replies(msgs, keys, swaps, policy, signer), [reply]);
    FramedOne(reply);
  }

  lemma RepliesAppend(
    msgs: seq<Bytes>, msg: Bytes, keys: seq<ServedKey>, swaps: seq<Option<seq<ServedKey>>>, policy: Policy,
      signer: Signer)
    ensures Replies(msgs + [msg], keys, swaps, policy, signer) ==
              Replies(msgs, keys, swaps, policy, signer) + [Reply(msg, KeysAt(keys, swaps, |msgs|), policy, signer)]
  {
    hide Reply, KeysAt;
  }

  lemma FramedOne(msg: Bytes)
    ensures Framed([msg]) == PutString(msg)
  {
    hide PutString;
    assert [msg][1..] == [] && Framed([]) == [];
  }

  /** The whole exchange: legal messages, framed, then anything that ends the
      connection; the client reads back one reply for each, in order. */
  lemma ExchangeIsOneToOne(
    msgs: seq<Bytes>, tail: Bytes, keys: seq<ServedKey>, swaps: seq<Option<seq<ServedKey>>>, policy: Policy,
      signer: Signer)
    requires (forall i :: 0 <= i < |msgs| ==> Legal(msgs[i])) && Stuck(tail)
    requires forall i :: 0 <= i < |msgs| ==> |Reply(msgs[i], KeysAt(keys, swaps, i), policy, signer)| < U32
    ensures
      var replies := Replies(Frames(Framed(msgs) + tail).0, keys, swaps, policy, signer);
      && |replies| == |msgs| && ReadStrings(Framed(replies), |msgs|) == Some((replies, []))
      && forall i :: 0 <= i < |msgs| ==> replies[i] == Reply(msgs[i], KeysAt(keys, swaps, i), policy, signer)
  {
    hide Reply, Stuck, Legal;
    FramesRoundTrip(msgs, tail);
    FramedReads(Replies(msgs, keys, swaps, policy, signer));
  }
}
