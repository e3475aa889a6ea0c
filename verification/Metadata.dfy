/**
 The metadata of a ZMTP handshake (src/mechanism.cpp): properties, each a short
 name and a long value, one after the other.
 */
module Metadata {
  import opened Basics
  import opened WireFormat

  datatype SocketType = PAIR | PUB | SUB | REQ | REP | DEALER | ROUTER | PULL | PUSH | XPUB | XSUB | STREAM

  datatype Prop = Prop(name: seq<Byte>, value: seq<Byte>)

  function Ascii(s: string): (r: seq<Byte>)
    ensures |r| == |s|
  {
    seq(|s|, i requires 0 <= i < |s| => s[i] as int % 256)
  }

  function TypeName(t: SocketType): seq<Byte> {
    match t
    case PAIR => Ascii("PAIR")
    case PUB => Ascii("PUB")
    case SUB => Ascii("SUB")
    case REQ => Ascii("REQ")
    case REP => Ascii("REP")
    case DEALER => Ascii("DEALER")
    case ROUTER => Ascii("ROUTER")
    case PULL => Ascii("PULL")
    case PUSH => Ascii("PUSH")
    case XPUB => Ascii("XPUB")
    case XSUB => Ascii("XSUB")
    case STREAM => Ascii("STREAM")
  }

  /** check_socket_type: the types of the peer that a socket talks to. */
  predicate CheckSocketType(own: SocketType, value: seq<Byte>) {
    match own
    case REQ => value == TypeName(REP) || value == TypeName(ROUTER)
    case REP => value == TypeName(REQ) || value == TypeName(DEALER)
    case DEALER => value == TypeName(REP) || value == TypeName(DEALER) || value == TypeName(ROUTER)
    case ROUTER => value == TypeName(REQ) || value == TypeName(DEALER) || value == TypeName(ROUTER)
    case PUSH => value == TypeName(PULL)
    case PULL => value == TypeName(PUSH)
    case PUB => value == TypeName(SUB) || value == TypeName(XSUB)
    case SUB => value == TypeName(PUB) || value == TypeName(XPUB)
    case XPUB => value == TypeName(SUB) || value == TypeName(XSUB)
    case XSUB => value == TypeName(PUB) || value == TypeName(XPUB)
    case PAIR => value == TypeName(PAIR)
    case STREAM => false
  }

  function SocketTypeName(): seq<Byte> { Ascii("Socket-Type") }

  function IdentityName(): seq<Byte> { Ascii("Identity") }

  lemma {:induction false} TypeNamesDiffer(a: SocketType, b: SocketType)
    ensures TypeName(a) == TypeName(b) <==> a == b
  {
    var x, y := TypeName(a), TypeName(b);
    if |x| == |y| {
      assert x[0] == y[0] && x[1] == y[1] && x[2] == y[2] ==> a == b;
    }
  }

  /** The combinations of socket types, each written once. */
  const PAIRS: set<(SocketType, SocketType)> :=
    {(REQ, REP), (REQ, ROUTER), (REP, DEALER), (DEALER, DEALER), (DEALER, ROUTER), (ROUTER, ROUTER),
     (PUB, SUB), (PUB, XSUB), (XPUB, SUB), (XPUB, XSUB), (PUSH, PULL), (PAIR, PAIR)}

  /** A socket accepts exactly the types that form a combination with its own,
      so two sockets accept each other or refuse each other, and it accepts no
      other value. */
  lemma ExactlyThePairs(a: SocketType, value: seq<Byte>)
    ensures CheckSocketType(a, value) <==>
            exists b: SocketType :: value == TypeName(b) && ((a, b) in PAIRS || (b, a) in PAIRS)
  {
    if CheckSocketType(a, value) {
      var b := NamedType(a, value);
      assert value == TypeName(b);
    }
    if b: SocketType :| value == TypeName(b) && ((a, b) in PAIRS || (b, a) in PAIRS) {
      PairIsAccepted(a, b);
    }
  }

  lemma PairIsAccepted(a: SocketType, b: SocketType)
    requires (a, b) in PAIRS || (b, a) in PAIRS
    ensures CheckSocketType(a, TypeName(b))
  {
    match a
    case REQ => assert b == REP || b == ROUTER;
    case REP => assert b == REQ || b == DEALER;
    case DEALER => assert b == REP || b == DEALER || b == ROUTER;
    case ROUTER => assert b == REQ || b == DEALER || b == ROUTER;
    case PUSH => assert b == PULL;
    case PULL => assert b == PUSH;
    case PUB => assert b == SUB || b == XSUB;
    case SUB => assert b == PUB || b == XPUB;
    case XPUB => assert b == SUB || b == XSUB;
    case XSUB => assert b == PUB || b == XPUB;
    case PAIR => assert b == PAIR;
    case STREAM =>
  }

  lemma NamedType(a: SocketType, value: seq<Byte>) returns (b: SocketType)
    requires CheckSocketType(a, value)
    ensures value == TypeName(b) && ((a, b) in PAIRS || (b, a) in PAIRS)
  {
    match a
    case REQ => b := if value == TypeName(REP) then REP else ROUTER;
    case REP => b := if value == TypeName(REQ) then REQ else DEALER;
    case DEALER => b := if value == TypeName(REP) then REP else if value == TypeName(DEALER) then DEALER else ROUTER;
    case ROUTER => b := if value == TypeName(REQ) then REQ else if value == TypeName(DEALER) then DEALER else ROUTER;
    case PUSH => b := PULL;
    case PULL => b := PUSH;
    case PUB => b := if value == TypeName(SUB) then SUB else XSUB;
    case SUB => b := if value == TypeName(PUB) then PUB else XPUB;
    case XPUB => b := if value == TypeName(SUB) then SUB else XSUB;
    case XSUB => b := if value == TypeName(PUB) then PUB else XPUB;
    case PAIR => b := PAIR;
    case STREAM =>
  }

  // ---------------------------------------------------------------- writing

  const VALUE_LEN_SIZE := 4

  /** What add_property asserts of a property. */
  predicate Writable(p: Prop) {
    |p.name| <= 255 && |p.value| <= 0x7FFF_FFFF
  }

  function PropertyLen(p: Prop): nat {
    1 + |p.name| + VALUE_LEN_SIZE + |p.value|
  }

  function Encoded(p: Prop): (r: seq<Byte>)
    requires |p.name| <= 255
    ensures |r| == PropertyLen(p)
  {
    [|p.name|] + p.name + Put(|p.value|, VALUE_LEN_SIZE) + p.value
  }

  predicate Short(ps: seq<Prop>) {
    forall i :: 0 <= i < |ps| ==> |ps[i].name| <= 255
  }

  function EncodedAll(ps: seq<Prop>): seq<Byte>
    requires Short(ps)
  {
    if ps == [] then [] else Encoded(ps[0]) + EncodedAll(ps[1..])
  }

  lemma {:induction false} EncodedAllAppend(ps: seq<Prop>, p: Prop)
    requires Short(ps) && |p.name| <= 255
    ensures EncodedAll(ps + [p]) == EncodedAll(ps) + Encoded(p)
  {
    if ps == [] {
      assert [p][1..] == [] && EncodedAll([]) == [];
      assert ps + [p] == [p];
      assert EncodedAll([p]) == Encoded(p) + [] == Encoded(p);
    } else {
      assert (ps + [p])[1..] == ps[1..] + [p];
      EncodedAllAppend(ps[1..], p);
      assert Encoded(ps[0]) + (EncodedAll(ps[1..]) + Encoded(p)) == Encoded(ps[0]) + EncodedAll(ps[1..]) + Encoded(p);
    }
  }

  /** hook is the property function of the mechanism, which may refuse a property. */
  datatype Options = Options(kind: SocketType, routingId: seq<Byte>, appMetadata: seq<Prop>, recvRoutingId: bool,
                             hook: Prop -> bool)

  predicate AppName(name: seq<Byte>) {
    Ascii("X-") <= name
  }

  /** What the option setters admit: a routing id of at most 255 bytes, and
      application metadata with distinct names that begin with X-. */
  predicate OptionsOk(o: Options) {
    && |o.routingId| <= 255
    && (forall i :: 0 <= i < |o.appMetadata| ==> Writable(o.appMetadata[i]) && AppName(o.appMetadata[i].name))
    && (forall i, j :: 0 <= i < j < |o.appMetadata| ==> o.appMetadata[i].name != o.appMetadata[j].name)
  }

  predicate HasIdentity(kind: SocketType) {
    kind == REQ || kind == DEALER || kind == ROUTER
  }

  /** The properties a socket announces, in order. */
  function BasicProperties(o: Options): seq<Prop> {
    [Prop(SocketTypeName(), TypeName(o.kind))]
    + (if HasIdentity(o.kind) then [Prop(IdentityName(), o.routingId)] else [])
    + o.appMetadata
  }

  // ---------------------------------------------------------------- reading

  /** A look at the next property: it is whole, or the loop is left with so
      many bytes unread. */
  datatype Look = Whole(prop: Prop, rest: seq<Byte>) | Left(unread: seq<Byte>)

  function Next(data: seq<Byte>): (r: Look)
    ensures r.Whole? ==> |r.rest| < |data| && |r.prop.name| <= 255
  {
    if |data| <= 1 then Left(data)
    else
      var n, d1 := data[0], data[1..];
      if |d1| < n then Left(d1)
      else
        var d2 := d1[n..];
        if |d2| < VALUE_LEN_SIZE then Left(d2)
        else
          var v, d3 := Get(d2[..VALUE_LEN_SIZE]), d2[VALUE_LEN_SIZE..];
          if |d3| < v then Left(d3) else Whole(Prop(d1[..n], d3[..v]), d3[v..])
  }

  datatype Verdict = Good | Malformed | Refused

  /** An identity that is wanted is taken; a socket type has to fit; any other
      property is left to the hook. */
  predicate Acceptable(o: Options, p: Prop) {
    if p.name == IdentityName() && o.recvRoutingId then true
    else if p.name == SocketTypeName() then CheckSocketType(o.kind, p.value)
    else o.hook(p)
  }

  datatype Parsed = Parsed(verdict: Verdict, props: seq<Prop>)

  /** The verdict, and the properties that were stored before it. */
  function Parse(o: Options, data: seq<Byte>): Parsed
    decreases |data|
  {
    match Next(data)
    case Left(unread) => Parsed(if unread == [] then Good else Malformed, [])
    case Whole(p, rest) =>
      if !Acceptable(o, p) then Parsed(Refused, [])
      else var r := Parse(o, rest); Parsed(r.verdict, [p] + r.props)
  }

  /** Storing properties: a name that is there already keeps its value. */
  function Stored(d: map<seq<Byte>, seq<Byte>>, ps: seq<Prop>): map<seq<Byte>, seq<Byte>>
    decreases |ps|
  {
    if ps == [] then d
    else Stored(if ps[0].name in d then d else d[ps[0].name := ps[0].value], ps[1..])
  }

  /** The identity after reading properties: each one that is wanted replaces it. */
  function Identified(wanted: bool, id: seq<Byte>, ps: seq<Prop>): seq<Byte>
    decreases |ps|
  {
    if ps == [] then id
    else Identified(wanted, if ps[0].name == IdentityName() && wanted then ps[0].value else id, ps[1..])
  }

  // ---------------------------------------------------------------- the accepted language

  /** A property that ends right after its name, which is not empty. */
  predicate EndsAfterName(tail: seq<Byte>) {
    |tail| >= 2 && |tail| - 1 == tail[0]
  }

  /** A property that ends right after a value length, which is not zero. */
  predicate EndsAfterLength(tail: seq<Byte>) {
    |tail| >= 5 && |tail| - 5 == tail[0] && Get(tail[|tail| - 4..]) > 0
  }

  predicate Tail(tail: seq<Byte>) {
    tail == [] || EndsAfterName(tail) || EndsAfterLength(tail)
  }

  /** A value length is a 32-bit number. */
  predicate Representable(ps: seq<Prop>) {
    Short(ps) && forall i :: 0 <= i < |ps| ==> |ps[i].value| < Power(4)
  }

  predicate AllAcceptable(o: Options, ps: seq<Prop>) {
    forall i :: 0 <= i < |ps| ==> Acceptable(o, ps[i])
  }

  lemma NextOfEncoded(p: Prop, rest: seq<Byte>)
    requires |p.name| <= 255 && |p.value| < Power(4)
    ensures Next(Encoded(p) + rest) == Whole(p, rest)
  {
    var data := Encoded(p) + rest;
    var d1 := p.name + Put(|p.value|, 4) + p.value + rest;
    assert data[1..] == d1;
    assert d1[|p.name|..] == Put(|p.value|, 4) + p.value + rest;
    var d2 := Put(|p.value|, 4) + p.value + rest;
    assert d2[..4] == Put(|p.value|, 4);
    GetPut(|p.value|, 4);
    assert d2[4..] == p.value + rest;
    assert d1[..|p.name|] == p.name;
    assert (p.value + rest)[..|p.value|] == p.value && (p.value + rest)[|p.value|..] == rest;
  }

  lemma {:induction false} PutGet(bytes: seq<Byte>)
    ensures Get(bytes) < Power(|bytes|) && Put(Get(bytes), |bytes|) == bytes
  {
    if bytes != [] {
      var n := |bytes| - 1;
      PutGet(bytes[..n]);
      assert Get(bytes) / 256 == Get(bytes[..n]) && Get(bytes) % 256 == bytes[n];
      assert bytes == bytes[..n] + [bytes[n]];
    }
  }

  lemma Assembled(name: seq<Byte>, length: seq<Byte>, value: seq<Byte>, rest: seq<Byte>)
    requires |name| <= 255 && length == Put(|value|, 4)
    ensures [|name|] + (name + (length + (value + rest))) == Encoded(Prop(name, value)) + rest
  {
  }

  lemma NextIsEncoded(data: seq<Byte>)
    requires Next(data).Whole?
    ensures var p := Next(data).prop;
            |p.name| <= 255 && |p.value| < Power(4) && data == Encoded(p) + Next(data).rest
  {
    var n, d1 := data[0], data[1..];
    var d2 := d1[n..];
    var v, d3 := Get(d2[..4]), d2[4..];
    PutGet(d2[..4]);
    assert d3 == d3[..v] + d3[v..] && d2 == d2[..4] + d3 && d1 == d1[..n] + d2 && data == [n] + d1;
    Assembled(d1[..n], d2[..4], d3[..v], d3[v..]);
  }

  lemma NextLeavesNothing(data: seq<Byte>)
    requires Next(data).Left?
    ensures Next(data).unread == [] <==> Tail(data)
  {
    if |data| >= 2 && |data| - 1 >= data[0] {
      var d2 := data[1..][data[0]..];
      assert d2 == data[1 + data[0]..];
      if |d2| == 4 {
        assert d2[..4] == data[|data| - 4..];
      }
    }
  }
}
