/** What parse_metadata accepts, and that it undoes add_basic_properties. */
module MetadataTheorems {
  import opened Basics
  import opened WireFormat
  import opened Metadata

  /** Whole acceptable properties, optionally followed by a cut one. */
  predicate Splits(o: Options, data: seq<Byte>, ps: seq<Prop>, tail: seq<Byte>) {
    Representable(ps) && AllAcceptable(o, ps) && Tail(tail) && data == EncodedAll(ps) + tail
  }

  /** Whole acceptable properties, then one that is refused. */
  predicate Clashes(o: Options, data: seq<Byte>, ps: seq<Prop>, p: Prop, rest: seq<Byte>) {
    && Representable(ps) && AllAcceptable(o, ps) && |p.name| <= 255 && |p.value| < Power(4) && !Acceptable(o, p)
    && data == EncodedAll(ps) + (Encoded(p) + rest)
  }

  lemma TailIsLeft(tail: seq<Byte>)
    requires Tail(tail)
    ensures Next(tail) == Left([])
  {
    if EndsAfterLength(tail) {
      assert tail[1..][tail[0]..][..4] == tail[|tail| - 4..];
    }
  }

  lemma ParseOne(o: Options, p: Prop, more: seq<Byte>)
    requires |p.name| <= 255 && |p.value| < Power(4) && Acceptable(o, p)
    ensures Parse(o, Encoded(p) + more) == Parsed(Parse(o, more).verdict, [p] + Parse(o, more).props)
  {
    NextOfEncoded(p, more);
  }

  lemma FirstOfMany(ps: seq<Prop>, rest: seq<Byte>)
    requires Representable(ps) && ps != []
    ensures EncodedAll(ps) + rest == Encoded(ps[0]) + (EncodedAll(ps[1..]) + rest)
    ensures Representable(ps[1..]) && Representable([ps[0]]) && |ps[0].value| < Power(4)
  {
    Regroup(Encoded(ps[0]), EncodedAll(ps[1..]), rest);
  }

  /** Whole properties are read one after the other, whatever follows. */
  lemma {:induction false} ParseWhole(o: Options, ps: seq<Prop>, rest: seq<Byte>)
    requires Representable(ps) && AllAcceptable(o, ps)
    ensures Parse(o, EncodedAll(ps) + rest) == Parsed(Parse(o, rest).verdict, ps + Parse(o, rest).props)
  {
    var props := Parse(o, rest).props;
    if ps == [] {
      assert EncodedAll(ps) + rest == rest && ps + props == props;
    } else {
      FirstOfMany(ps, rest);
      ParseOne(o, ps[0], EncodedAll(ps[1..]) + rest);
      ParseWhole(o, ps[1..], rest);
      Regroup([ps[0]], ps[1..], props);
      assert [ps[0]] + ps[1..] == ps;
    }
  }

  /** What was stored is a prefix of the data. */
  lemma {:induction false} ParseReads(o: Options, data: seq<Byte>) returns (rest: seq<Byte>)
    ensures var r := Parse(o, data);
            && Representable(r.props) && AllAcceptable(o, r.props) && data == EncodedAll(r.props) + rest
            && (if r.verdict == Refused then Next(rest).Whole? && !Acceptable(o, Next(rest).prop)
                else Next(rest).Left? && (r.verdict == Good <==> Next(rest).unread == []))
    decreases |data|
  {
    var look := Next(data);
    rest := data;
    if look.Whole? && Acceptable(o, look.prop) {
      NextIsEncoded(data);
      rest := ParseReads(o, look.rest);
      ReadsMore(o, look.prop, Parse(o, look.rest).props, rest);
    } else {
      assert EncodedAll([]) + data == data;
    }
  }

  lemma ReadsMore(o: Options, p: Prop, ps: seq<Prop>, rest: seq<Byte>)
    requires Representable(ps) && AllAcceptable(o, ps)
    requires |p.name| <= 255 && |p.value| < Power(4) && Acceptable(o, p)
    ensures Representable([p] + ps) && AllAcceptable(o, [p] + ps)
    ensures Encoded(p) + (EncodedAll(ps) + rest) == EncodedAll([p] + ps) + rest
  {
    assert ([p] + ps)[1..] == ps;
    Regroup(Encoded(p), EncodedAll(ps), rest);
  }

  /** The data is accepted exactly when it consists of whole acceptable
      properties, optionally followed by one that is cut right after its
      nonempty name or right after a nonzero value length. */
  lemma AcceptedLanguage(o: Options, data: seq<Byte>)
    ensures Parse(o, data).verdict == Good <==> exists ps: seq<Prop>, tail: seq<Byte> :: Splits(o, data, ps, tail)
  {
    if Parse(o, data).verdict == Good {
      var rest := ParseReads(o, data);
      NextLeavesNothing(rest);
      assert Splits(o, data, Parse(o, data).props, rest);
    }
    if ps: seq<Prop>, tail: seq<Byte> :| Splits(o, data, ps, tail) {
      TailIsLeft(tail);
      ParseWhole(o, ps, tail);
    }
  }

  /** The properties of accepted data are determined by it. */
  lemma PropertiesAreUnique(o: Options, data: seq<Byte>, ps: seq<Prop>, tail: seq<Byte>)
    requires Splits(o, data, ps, tail)
    ensures Parse(o, data) == Parsed(Good, ps)
  {
    TailIsLeft(tail);
    ParseWhole(o, ps, tail);
    assert ps + [] == ps;
  }

  /** The data is refused exactly when a property that is not acceptable follows whole ones that are. */
  lemma RefusedLanguage(o: Options, data: seq<Byte>)
    ensures Parse(o, data).verdict == Refused <==>
            exists ps: seq<Prop>, p: Prop, rest: seq<Byte> :: Clashes(o, data, ps, p, rest)
  {
    if Parse(o, data).verdict == Refused {
      var rest := ParseReads(o, data);
      NextIsEncoded(rest);
      assert Clashes(o, data, Parse(o, data).props, Next(rest).prop, Next(rest).rest);
    }
    if ps: seq<Prop>, p: Prop, rest: seq<Byte> :| Clashes(o, data, ps, p, rest) {
      NextOfEncoded(p, rest);
      ParseWhole(o, ps, Encoded(p) + rest);
    }
  }

  // ---------------------------------------------------------------- round trip

  predicate DistinctNames(ps: seq<Prop>) {
    forall i, j :: 0 <= i < j < |ps| ==> ps[i].name != ps[j].name
  }

  /** Of several values for a name the first is kept; others are untouched. */
  lemma {:induction false} StoredKeeps(d: map<seq<Byte>, seq<Byte>>, ps: seq<Prop>)
    ensures d.Keys <= Stored(d, ps).Keys && forall k :: k in d ==> Stored(d, ps)[k] == d[k]
    ensures forall i :: 0 <= i < |ps| ==> ps[i].name in Stored(d, ps)
    decreases |ps|
  {
    if ps != [] {
      var e := if ps[0].name in d then d else d[ps[0].name := ps[0].value];
      StoredKeeps(e, ps[1..]);
      forall i | 0 <= i < |ps| ensures ps[i].name in Stored(d, ps) {
        if i > 0 { assert ps[i] == ps[1..][i - 1]; }
      }
    }
  }

  lemma {:induction false} StoredFirst(d: map<seq<Byte>, seq<Byte>>, ps: seq<Prop>, i: nat)
    requires i < |ps| && ps[i].name !in d && forall j :: 0 <= j < i ==> ps[j].name != ps[i].name
    ensures ps[i].name in Stored(d, ps) && Stored(d, ps)[ps[i].name] == ps[i].value
    decreases i
  {
    var e := if ps[0].name in d then d else d[ps[0].name := ps[0].value];
    StoredKeeps(e, ps[1..]);
    if i > 0 {
      assert ps[1..][i - 1] == ps[i];
      StoredFirst(e, ps[1..], i - 1);
    }
  }

  /** The standard names are told apart from each other and from the application's. */
  lemma NamesApart()
    ensures SocketTypeName() != IdentityName()
    ensures forall name: seq<Byte> :: AppName(name) ==> name != SocketTypeName() && name != IdentityName()
    ensures |SocketTypeName()| <= 255 && |IdentityName()| <= 255 && Power(4) > 0x7FFF_FFFF
  {
    var x := Ascii("X-");
    assert x[0] != SocketTypeName()[0] && x[0] != IdentityName()[0];
    assert |SocketTypeName()| != |IdentityName()|;
    assert Power(4) == 256 * (256 * (256 * 256));
  }

  /** The announced property i is the socket type, the identity or the application's. */
  lemma BasicAt(o: Options, i: nat)
    requires i < |BasicProperties(o)|
    ensures var k := |BasicProperties(o)| - |o.appMetadata|;
            0 < k <= 2 && BasicProperties(o)[i] ==
              if i >= k then o.appMetadata[i - k] else if i == 0 then Prop(SocketTypeName(), TypeName(o.kind))
              else Prop(IdentityName(), o.routingId)
  {
  }

  lemma BasicIsRepresentable(o: Options)
    requires OptionsOk(o)
    ensures Representable(BasicProperties(o))
  {
    NamesApart();
    var ps := BasicProperties(o);
    forall i | 0 <= i < |ps|
      ensures |ps[i].name| <= 255 && |ps[i].value| < Power(4)
    {
      BasicAt(o, i);
    }
  }

  lemma BasicIsDistinct(o: Options)
    requires OptionsOk(o)
    ensures DistinctNames(BasicProperties(o))
  {
    NamesApart();
    var ps := BasicProperties(o);
    forall i, j | 0 <= i < j < |ps|
      ensures ps[i].name != ps[j].name
    {
      BasicAt(o, i);
      BasicAt(o, j);
    }
  }

  /** The hook has nothing against what the peer announces. */
  predicate HookAccepts(mine: Options, theirs: Options) {
    && (forall i :: 0 <= i < |theirs.appMetadata| ==> mine.hook(theirs.appMetadata[i]))
    && (HasIdentity(theirs.kind) && !mine.recvRoutingId ==> mine.hook(Prop(IdentityName(), theirs.routingId)))
  }

  lemma BasicIsAcceptable(mine: Options, theirs: Options)
    requires OptionsOk(theirs) && CheckSocketType(mine.kind, TypeName(theirs.kind)) && HookAccepts(mine, theirs)
    ensures AllAcceptable(mine, BasicProperties(theirs))
  {
    NamesApart();
    var ps := BasicProperties(theirs);
    forall i | 0 <= i < |ps|
      ensures Acceptable(mine, ps[i])
    {
      BasicAt(theirs, i);
    }
  }

  /** A socket reads what a compatible peer announces, every pair of it, if the
      hook lets it; what an incompatible peer announces is refused at once. */
  lemma RoundTrip(mine: Options, theirs: Options)
    requires OptionsOk(theirs)
    ensures Short(BasicProperties(theirs))
    ensures var ps := BasicProperties(theirs);
            var r := Parse(mine, EncodedAll(ps));
            && (CheckSocketType(mine.kind, TypeName(theirs.kind)) && HookAccepts(mine, theirs) ==>
                  r == Parsed(Good, ps))
            && (!CheckSocketType(mine.kind, TypeName(theirs.kind)) ==> r == Parsed(Refused, []))
  {
    var ps := BasicProperties(theirs);
    BasicIsRepresentable(theirs);
    assert EncodedAll(ps) + [] == EncodedAll(ps);
    if CheckSocketType(mine.kind, TypeName(theirs.kind)) {
      if HookAccepts(mine, theirs) {
        BasicIsAcceptable(mine, theirs);
        PropertiesAreUnique(mine, EncodedAll(ps), ps, []);
      }
    } else {
      NextOfEncoded(ps[0], EncodedAll(ps[1..]));
      assert |SocketTypeName()| != |IdentityName()|;
    }
  }

  /** What is stored of the properties a peer announces is each value under its name. */
  lemma AnnouncedIsStored(theirs: Options, i: nat)
    requires OptionsOk(theirs) && i < |BasicProperties(theirs)|
    ensures var ps := BasicProperties(theirs);
            ps[i].name in Stored(map[], ps) && Stored(map[], ps)[ps[i].name] == ps[i].value
  {
    BasicIsDistinct(theirs);
    StoredFirst(map[], BasicProperties(theirs), i);
  }

  lemma {:induction false} StoredNames(d: map<seq<Byte>, seq<Byte>>, ps: seq<Prop>, name: seq<Byte>)
    requires name in Stored(d, ps) && name !in d
    ensures exists i :: 0 <= i < |ps| && ps[i].name == name
    decreases |ps|
  {
    if ps != [] && ps[0].name != name {
      StoredNames(if ps[0].name in d then d else d[ps[0].name := ps[0].value], ps[1..], name);
      var i :| 0 <= i < |ps[1..]| && ps[1..][i].name == name;
      assert ps[i + 1].name == name;
    }
  }

  // ---------------------------------------------------------------- the routing id

  /** Without an identity among the properties, or when it is not wanted, it stays. */
  lemma {:induction false} NoIdentity(wanted: bool, id: seq<Byte>, ps: seq<Prop>)
    requires !wanted || forall i :: 0 <= i < |ps| ==> ps[i].name != IdentityName()
    ensures Identified(wanted, id, ps) == id
    decreases |ps|
  {
    if ps != [] { NoIdentity(wanted, id, ps[1..]); }
  }

  /** Of several identities that are wanted the last one counts. */
  lemma {:induction false} LastIdentity(id: seq<Byte>, ps: seq<Prop>, i: nat)
    requires i < |ps| && ps[i].name == IdentityName()
    requires forall j :: i < j < |ps| ==> ps[j].name != IdentityName()
    ensures Identified(true, id, ps) == ps[i].value
    decreases i
  {
    var id1 := if ps[0].name == IdentityName() then ps[0].value else id;
    if i == 0 {
      NoIdentity(true, id1, ps[1..]);
    } else {
      assert ps[1..][i - 1] == ps[i];
      LastIdentity(id1, ps[1..], i - 1);
    }
  }

  /** A REQ, DEALER or ROUTER socket announces its routing id, and no other does. */
  lemma AnnouncedIdentity(wanted: bool, id: seq<Byte>, theirs: Options)
    requires OptionsOk(theirs)
    ensures Identified(wanted, id, BasicProperties(theirs))
            == if wanted && theirs.kind in {REQ, DEALER, ROUTER} then theirs.routingId else id
  {
    NamesApart();
    var ps := BasicProperties(theirs);
    forall i | 0 <= i < |ps|
      ensures ps[i].name == IdentityName() <==> i == 1 && theirs.kind in {REQ, DEALER, ROUTER}
    {
      BasicAt(theirs, i);
    }
    if wanted && theirs.kind in {REQ, DEALER, ROUTER} {
      BasicAt(theirs, 1);
      LastIdentity(id, ps, 1);
    } else {
      NoIdentity(wanted, id, ps);
    }
  }

  // ---------------------------------------------------------------- the handshake

  /** The dictionary holds what the peer announces: its type, its routing id if
      it has one, the application's properties, and nothing else. */
  predicate AnnouncedBy(theirs: Options, d: map<seq<Byte>, seq<Byte>>) {
    && SocketTypeName() in d && d[SocketTypeName()] == TypeName(theirs.kind)
    && (if theirs.kind in {REQ, DEALER, ROUTER} then IdentityName() in d && d[IdentityName()] == theirs.routingId
        else IdentityName() !in d)
    && (forall i :: 0 <= i < |theirs.appMetadata| ==>
                      theirs.appMetadata[i].name in d && d[theirs.appMetadata[i].name] == theirs.appMetadata[i].value)
    && (forall name :: name in d && name != SocketTypeName() && name != IdentityName() ==>
                         exists i :: 0 <= i < |theirs.appMetadata| && theirs.appMetadata[i].name == name)
  }

  lemma AllIsStored(theirs: Options)
    requires OptionsOk(theirs)
    ensures AnnouncedBy(theirs, Stored(map[], BasicProperties(theirs)))
  {
    var ps := BasicProperties(theirs);
    var d := Stored(map[], ps);
    var k := |ps| - |theirs.appMetadata|;
    AnnouncedIsStored(theirs, 0);
    if theirs.kind in {REQ, DEALER, ROUTER} { AnnouncedIsStored(theirs, 1); }
    forall i | 0 <= i < |theirs.appMetadata|
      ensures theirs.appMetadata[i].name in d && d[theirs.appMetadata[i].name] == theirs.appMetadata[i].value
    {
      BasicAt(theirs, k + i);
      AnnouncedIsStored(theirs, k + i);
    }
    NothingElseIsStored(theirs);
  }

  lemma NothingElseIsStored(theirs: Options)
    requires OptionsOk(theirs)
    ensures forall name :: name in Stored(map[], BasicProperties(theirs)) && name != SocketTypeName() ==>
              if name == IdentityName() then theirs.kind in {REQ, DEALER, ROUTER}
              else exists i :: 0 <= i < |theirs.appMetadata| && theirs.appMetadata[i].name == name
  {
    NamesApart();
    var ps := BasicProperties(theirs);
    var k := |ps| - |theirs.appMetadata|;
    forall name | name in Stored(map[], ps) && name != SocketTypeName()
      ensures name == IdentityName() ==> theirs.kind in {REQ, DEALER, ROUTER}
      ensures name != IdentityName() ==> exists i :: 0 <= i < |theirs.appMetadata| && theirs.appMetadata[i].name == name
    {
      StoredNames(map[], ps, name);
      var i :| 0 <= i < |ps| && ps[i].name == name;
      BasicAt(theirs, i);
      if i >= k { assert theirs.appMetadata[i - k].name == name; }
    }
  }

  lemma {:induction false} EncodedAllJoin(front: seq<Prop>, back: seq<Prop>)
    requires Short(front) && Short(back)
    ensures Short(front + back) && EncodedAll(front + back) == EncodedAll(front) + EncodedAll(back)
  {
    if front == [] {
      assert front + back == back;
    } else {
      assert (front + back)[1..] == front[1..] + back;
      EncodedAllJoin(front[1..], back);
      Regroup(Encoded(front[0]), EncodedAll(front[1..]), EncodedAll(back));
    }
  }

  /** The first property that is not acceptable is where reading stops. */
  lemma {:induction false} FirstRefused(o: Options, ps: seq<Prop>, i: nat) returns (k: nat)
    requires i < |ps| && !Acceptable(o, ps[i])
    ensures k <= i && !Acceptable(o, ps[k]) && AllAcceptable(o, ps[..k])
    decreases i
  {
    if j :| 0 <= j < i && !Acceptable(o, ps[j]) {
      k := FirstRefused(o, ps, j);
    } else {
      k := i;
    }
  }

  lemma RefusedAt(o: Options, ps: seq<Prop>, k: nat)
    requires Representable(ps) && k < |ps| && !Acceptable(o, ps[k]) && AllAcceptable(o, ps[..k])
    ensures Parse(o, EncodedAll(ps)) == Parsed(Refused, ps[..k])
  {
    var front, back := ps[..k], ps[k..];
    assert front + back == ps;
    EncodedAllJoin(front, back);
    NextOfEncoded(ps[k], EncodedAll(back[1..]));
    ParseWhole(o, front, EncodedAll(back));
    assert front + [] == front;
  }

  /** A property that the hook refuses makes the handshake fail. */
  lemma HookRefuses(mine: Options, theirs: Options)
    requires OptionsOk(theirs) && !HookAccepts(mine, theirs)
    ensures Short(BasicProperties(theirs)) && Parse(mine, EncodedAll(BasicProperties(theirs))).verdict == Refused
  {
    NamesApart();
    BasicIsRepresentable(theirs);
    var ps := BasicProperties(theirs);
    var n := |ps| - |theirs.appMetadata|;
    var i;
    if j :| 0 <= j < |theirs.appMetadata| && !mine.hook(theirs.appMetadata[j]) {
      i := n + j;
    } else {
      i := 1;
    }
    BasicAt(theirs, i);
    var k := FirstRefused(mine, ps, i);
    RefusedAt(mine, ps, k);
  }

  lemma HandshakeResult(mine: Options, theirs: Options)
    requires OptionsOk(theirs)
    ensures Short(BasicProperties(theirs))
    ensures var r := Parse(mine, EncodedAll(BasicProperties(theirs)));
            var fits := (mine.kind, theirs.kind) in PAIRS || (theirs.kind, mine.kind) in PAIRS;
            && (fits && HookAccepts(mine, theirs) ==>
                  && r == Parsed(Good, BasicProperties(theirs)) && AnnouncedBy(theirs, Stored(map[], r.props))
                  && Identified(mine.recvRoutingId, [], r.props) ==
                       if mine.recvRoutingId && theirs.kind in {REQ, DEALER, ROUTER} then theirs.routingId else [])
            && (!HookAccepts(mine, theirs) ==> r.verdict == Refused)
            && (!fits ==> r == Parsed(Refused, []))
  {
    RoundTrip(mine, theirs);
    if !HookAccepts(mine, theirs) { HookRefuses(mine, theirs); }
    FitsByName(mine.kind, theirs.kind);
    AllIsStored(theirs);
    AnnouncedIdentity(mine.recvRoutingId, [], theirs);
  }

  lemma FitsByName(a: SocketType, b: SocketType)
    ensures CheckSocketType(a, TypeName(b)) <==> (a, b) in PAIRS || (b, a) in PAIRS
  {
    ExactlyThePairs(a, TypeName(b));
    forall x: SocketType ensures TypeName(b) == TypeName(x) <==> b == x { TypeNamesDiffer(b, x); }
  }
}
