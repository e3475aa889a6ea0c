/** mechanism_t's reading and writing of metadata, in place. */
module MetadataObject {
  import opened Basics
  import opened WireFormat
  import opened Metadata
  import opened MetadataTheorems

  // ---------------------------------------------------------------- lengths

  /** The properties done so far and the next one fit where all of them fit. */
  lemma NextFits(ps: seq<Prop>, i: nat)
    requires Short(ps) && i < |ps|
    ensures EncodedAll(ps[..i + 1]) == EncodedAll(ps[..i]) + Encoded(ps[i])
    ensures |EncodedAll(ps[..i + 1])| <= |EncodedAll(ps)|
  {
    assert ps[..i + 1] == ps[..i] + [ps[i]];
    EncodedAllAppend(ps[..i], ps[i]);
    assert ps == ps[..i + 1] + ps[i + 1..];
    EncodedAllJoin(ps[..i + 1], ps[i + 1..]);
  }

  /** basic_properties_len. */
  method BasicPropertiesLen(o: Options) returns (n: nat)
    requires OptionsOk(o)
    ensures Short(BasicProperties(o)) && n == |EncodedAll(BasicProperties(o))|
  {
    var meta, app := 0, o.appMetadata;
    assert Short(app);
    for i := 0 to |app|
      invariant meta == |EncodedAll(app[..i])|
    {
      NextFits(app, i);
      meta := meta + PropertyLen(app[i]);
    }
    assert app[..|app|] == app;
    n := PropertyLen(Prop(SocketTypeName(), TypeName(o.kind))) + meta
         + if HasIdentity(o.kind) then PropertyLen(Prop(IdentityName(), o.routingId)) else 0;
    LengthOfBasic(o);
  }

  lemma LengthOfOne(p: Prop)
    requires |p.name| <= 255
    ensures Short([p]) && |EncodedAll([p])| == PropertyLen(p)
  {
    assert [] + [p] == [p];
    EncodedAllAppend([], p);
  }

  lemma LengthOfBasic(o: Options)
    requires OptionsOk(o)
    ensures Short(o.appMetadata) && Short(BasicProperties(o))
    ensures |EncodedAll(BasicProperties(o))| ==
              PropertyLen(Prop(SocketTypeName(), TypeName(o.kind))) + |EncodedAll(o.appMetadata)|
              + if HasIdentity(o.kind) then PropertyLen(Prop(IdentityName(), o.routingId)) else 0
  {
    NamesApart();
    var kind, identity := Prop(SocketTypeName(), TypeName(o.kind)), Prop(IdentityName(), o.routingId);
    LengthOfOne(kind);
    LengthOfOne(identity);
    var second := if HasIdentity(o.kind) then [identity] else [];
    EncodedAllJoin([kind], second);
    EncodedAllJoin([kind] + second, o.appMetadata);
  }

  // ---------------------------------------------------------------- writing

  /** The buffer with the bytes written at pos. */
  function Spliced(s: seq<Byte>, pos: nat, bytes: seq<Byte>): (r: seq<Byte>)
    requires pos + |bytes| <= |s|
    ensures |r| == |s|
  {
    s[..pos] + bytes + s[pos + |bytes|..]
  }

  lemma SpliceTwice(s: seq<Byte>, pos: nat, a: seq<Byte>, b: seq<Byte>)
    requires pos + |a| + |b| <= |s|
    ensures Spliced(Spliced(s, pos, a), pos + |a|, b) == Spliced(s, pos, a + b)
  {
  }

  lemma SpliceWhole(s: seq<Byte>, bytes: seq<Byte>)
    requires |bytes| == |s|
    ensures Spliced(s, 0, bytes) == bytes
  {
  }

  method Copy(buf: array<Byte>, pos: nat, bytes: seq<Byte>)
    requires pos + |bytes| <= buf.Length
    modifies buf
    ensures buf[..] == Spliced(old(buf[..]), pos, bytes)
  {
    forall i | 0 <= i < |bytes| { buf[pos + i] := bytes[i]; }
  }

  /** add_property. */
  method AddProperty(buf: array<Byte>, pos: nat, p: Prop) returns (n: nat)
    requires Writable(p) && pos + PropertyLen(p) <= buf.Length
    modifies buf
    ensures n == PropertyLen(p) && buf[..] == Spliced(old(buf[..]), pos, Encoded(p))
  {
    ghost var start := buf[..];
    var length := Put(|p.value|, VALUE_LEN_SIZE);
    Copy(buf, pos, [|p.name|]);
    var ptr := CopyBehind(buf, pos + 1, p.name, start, pos, [|p.name|]);
    ptr := CopyBehind(buf, ptr, length, start, pos, [|p.name|] + p.name);
    ptr := CopyBehind(buf, ptr, p.value, start, pos, [|p.name|] + p.name + length);
    n := PropertyLen(p);
  }

  /** Copy bytes behind those that are written at pos. */
  method CopyBehind(buf: array<Byte>, ptr: nat, bytes: seq<Byte>,
                    ghost start: seq<Byte>, ghost pos: nat, ghost done: seq<Byte>) returns (ptr': nat)
    requires ptr == pos + |done| && ptr + |bytes| <= |start| == buf.Length && buf[..] == Spliced(start, pos, done)
    modifies buf
    ensures ptr' == ptr + |bytes| && buf[..] == Spliced(start, pos, done + bytes)
  {
    SpliceTwice(start, pos, done, bytes);
    Copy(buf, ptr, bytes);
    ptr' := ptr + |bytes|;
  }

  /** The first i properties are written at pos. */
  ghost predicate Written(buf: array<Byte>, start: seq<Byte>, pos: nat, ps: seq<Prop>, i: nat, ptr: nat)
    requires Short(ps) && i <= |ps|
    reads buf
  {
    && ptr == pos + |EncodedAll(ps[..i])| <= |start|
    && buf[..] == Spliced(start, pos, EncodedAll(ps[..i]))
  }

  method AddNext(buf: array<Byte>, ptr: nat, p: Prop,
                 ghost start: seq<Byte>, ghost pos: nat, ghost ps: seq<Prop>, ghost i: nat) returns (ptr': nat)
    requires Short(ps) && i < |ps| && ps[i] == p && Writable(p) && Written(buf, start, pos, ps, i, ptr)
    requires pos + |EncodedAll(ps)| <= |start| == buf.Length
    modifies buf
    ensures Written(buf, start, pos, ps, i + 1, ptr')
  {
    NextFits(ps, i);
    SpliceTwice(start, pos, EncodedAll(ps[..i]), Encoded(p));
    var n := AddProperty(buf, ptr, p);
    ptr' := ptr + n;
  }

  /** The socket type, and for some sockets the identity. */
  method AddFixed(o: Options, buf: array<Byte>, pos: nat, ghost ps: seq<Prop>) returns (ptr: nat, ghost k: nat)
    requires OptionsOk(o) && ps == BasicProperties(o) && Short(ps) && pos + |EncodedAll(ps)| <= buf.Length
    modifies buf
    ensures k + |o.appMetadata| == |ps| && Written(buf, old(buf[..]), pos, ps, k, ptr)
  {
    ghost var start := buf[..];
    NamesApart();
    assert ps[..0] == [];
    k := 1;
    ptr := AddNext(buf, pos, Prop(SocketTypeName(), TypeName(o.kind)), start, pos, ps, 0);
    if HasIdentity(o.kind) {
      k := 2;
      ptr := AddNext(buf, ptr, Prop(IdentityName(), o.routingId), start, pos, ps, 1);
    }
  }

  /** The application's properties, behind the k fixed ones. */
  method AddApplication(o: Options, buf: array<Byte>, first: nat,
                        ghost start: seq<Byte>, ghost pos: nat, ghost ps: seq<Prop>, ghost k: nat) returns (ptr: nat)
    requires OptionsOk(o) && ps == BasicProperties(o) && Short(ps) && k + |o.appMetadata| == |ps|
    requires pos + |EncodedAll(ps)| <= |start| == buf.Length && Written(buf, start, pos, ps, k, first)
    modifies buf
    ensures Written(buf, start, pos, ps, |ps|, ptr)
  {
    ptr := first;
    for i := 0 to |o.appMetadata|
      invariant Written(buf, start, pos, ps, k + i, ptr)
    {
      BasicAt(o, k + i);
      ptr := AddNext(buf, ptr, o.appMetadata[i], start, pos, ps, k + i);
    }
  }

  /** add_basic_properties: its length assertions hold when there is room for
      basic_properties_len bytes. */
  method AddBasicProperties(o: Options, buf: array<Byte>, pos: nat) returns (n: nat)
    requires OptionsOk(o) && Short(BasicProperties(o)) && pos + |EncodedAll(BasicProperties(o))| <= buf.Length
    modifies buf
    ensures n == |EncodedAll(BasicProperties(o))|
    ensures buf[..] == Spliced(old(buf[..]), pos, EncodedAll(BasicProperties(o)))
  {
    ghost var ps, start := BasicProperties(o), buf[..];
    var ptr: nat;
    ghost var k: nat;
    ptr, k := AddFixed(o, buf, pos, ps);
    ptr := AddApplication(o, buf, ptr, start, pos, ps, k);
    assert ps[..|ps|] == ps;
    n := ptr - pos;
  }

  /** make_command_with_basic_properties: the command has exactly the room it needs. */
  method MakeCommand(o: Options, prefix: seq<Byte>) returns (buf: array<Byte>)
    requires OptionsOk(o)
    ensures fresh(buf) && Short(BasicProperties(o)) && buf[..] == prefix + EncodedAll(BasicProperties(o))
  {
    var len := BasicPropertiesLen(o);
    buf := new Byte[|prefix| + len](_ => 0);
    ghost var start := buf[..];
    Copy(buf, 0, prefix);
    SpliceTwice(start, 0, prefix, EncodedAll(BasicProperties(o)));
    var n := AddBasicProperties(o, buf, |prefix|);
    SpliceWhole(start, prefix + EncodedAll(BasicProperties(o)));
  }

  // ---------------------------------------------------------------- reading

  class MechanismT {
    const options: Options
    var zapProperties: map<seq<Byte>, seq<Byte>>
    var zmtpProperties: map<seq<Byte>, seq<Byte>>
    var peerRoutingId: seq<Byte>

    constructor (o: Options)
      ensures options == o && zapProperties == map[] && zmtpProperties == map[] && peerRoutingId == []
    {
      options, zapProperties, zmtpProperties, peerRoutingId := o, map[], map[], [];
    }

    /** Store a property, unless it is refused. */
    method Take(p: Prop, zapFlag: bool) returns (ok: bool)
      modifies this
      ensures ok == Acceptable(options, p)
      ensures ok ==> zapProperties == (if zapFlag then Stored(old(zapProperties), [p]) else old(zapProperties))
      ensures ok ==> zmtpProperties == (if zapFlag then old(zmtpProperties) else Stored(old(zmtpProperties), [p]))
      ensures ok ==> peerRoutingId == Identified(options.recvRoutingId, old(peerRoutingId), [p])
      ensures !ok ==> unchanged(this)
    {
      if p.name == IdentityName() && options.recvRoutingId {
        peerRoutingId := p.value;
      } else if p.name == SocketTypeName() {
        if !CheckSocketType(options.kind, p.value) { return false; }
      } else if !options.hook(p) {
        return false;
      }
      if zapFlag {
        if p.name !in zapProperties { zapProperties := zapProperties[p.name := p.value]; }
      } else {
        if p.name !in zmtpProperties { zmtpProperties := zmtpProperties[p.name := p.value]; }
      }
      return true;
    }

    /** What is stored and learnt now, and what is still to be read, make the result. */
    ghost predicate Reads(data: seq<Byte>, zapFlag: bool, r: Parsed, zap: map<seq<Byte>, seq<Byte>>,
                          zmtp: map<seq<Byte>, seq<Byte>>, id: seq<Byte>)
      reads this
    {
      var p := Parse(options, data);
      && p.verdict == r.verdict
      && Stored(zapProperties, if zapFlag then p.props else []) == zap
      && Stored(zmtpProperties, if zapFlag then [] else p.props) == zmtp
      && Identified(options.recvRoutingId, peerRoutingId, p.props) == id
    }

    /** parse_metadata. */
    method ParseMetadata(data: seq<Byte>, zapFlag: bool) returns (verdict: Verdict)
      modifies this
      ensures var r := Parse(options, data);
              && verdict == r.verdict
              && zapProperties == (if zapFlag then Stored(old(zapProperties), r.props) else old(zapProperties))
              && zmtpProperties == (if zapFlag then old(zmtpProperties) else Stored(old(zmtpProperties), r.props))
              && peerRoutingId == Identified(options.recvRoutingId, old(peerRoutingId), r.props)
    {
      var ptr := data;
      ghost var r := Parse(options, data);
      ghost var zap := if zapFlag then Stored(zapProperties, r.props) else zapProperties;
      ghost var zmtp := if zapFlag then zmtpProperties else Stored(zmtpProperties, r.props);
      ghost var id := Identified(options.recvRoutingId, peerRoutingId, r.props);
      while |ptr| > 1
        invariant Reads(ptr, zapFlag, r, zap, zmtp, id)
        decreases |ptr|
      {
        ghost var here := ptr;
        var nameLength := ptr[0];
        ptr := ptr[1..];
        if |ptr| < nameLength { break; }
        var name := ptr[..nameLength];
        ptr := ptr[nameLength..];
        if |ptr| < VALUE_LEN_SIZE { break; }
        var valueLength := Get(ptr[..VALUE_LEN_SIZE]);
        ptr := ptr[VALUE_LEN_SIZE..];
        if |ptr| < valueLength { break; }
        var p := Prop(name, ptr[..valueLength]);
        ptr := ptr[valueLength..];
        assert Metadata.Next(here) == Whole(p, ptr);
        var ok := TakeNext(here, p, ptr, zapFlag, r, zap, zmtp, id);
        if !ok { return Refused; }
      }
      return if |ptr| > 0 then Malformed else Good;
    }

    method TakeNext(ghost data: seq<Byte>, p: Prop, ghost rest: seq<Byte>, zapFlag: bool, ghost r: Parsed,
                    ghost zap: map<seq<Byte>, seq<Byte>>, ghost zmtp: map<seq<Byte>, seq<Byte>>, ghost id: seq<Byte>)
      returns (ok: bool)
      requires Metadata.Next(data) == Whole(p, rest) && |rest| < |data| && Reads(data, zapFlag, r, zap, zmtp, id)
      modifies this
      ensures if ok then Reads(rest, zapFlag, r, zap, zmtp, id)
              else r.verdict == Refused && zapProperties == zap && zmtpProperties == zmtp && peerRoutingId == id
    {
      ok := Take(p, zapFlag);
    }
  }

  /** A socket reads the command that a peer makes.  When the hook lets it, all
      that a compatible peer announces is stored and nothing else; its routing id
      is learnt when it is wanted and the peer is a REQ, DEALER or ROUTER.  What
      the hook does not let is refused, and nothing is taken from an incompatible
      peer. */
  method Handshake(mine: Options, theirs: Options, prefix: seq<Byte>) returns (m: MechanismT, verdict: Verdict)
    requires OptionsOk(theirs)
    ensures ((mine.kind, theirs.kind) in PAIRS || (theirs.kind, mine.kind) in PAIRS) && HookAccepts(mine, theirs) ==>
              && verdict == Good && m.zapProperties == map[] && AnnouncedBy(theirs, m.zmtpProperties)
              && m.peerRoutingId ==
                   if mine.recvRoutingId && theirs.kind in {REQ, DEALER, ROUTER} then theirs.routingId else []
    ensures !HookAccepts(mine, theirs) ==> verdict == Refused
    ensures (mine.kind, theirs.kind) !in PAIRS && (theirs.kind, mine.kind) !in PAIRS ==>
              verdict == Refused && m.zmtpProperties == map[] && m.zapProperties == map[] && m.peerRoutingId == []
  {
    var buf := MakeCommand(theirs, prefix);
    m := new MechanismT(mine);
    assert buf[|prefix|..] == EncodedAll(BasicProperties(theirs));
    verdict := m.ParseMetadata(buf[|prefix|..], false);
    HandshakeResult(mine, theirs);
  }
}
